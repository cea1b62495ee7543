/**
 * The byte-memory sandbox of memory_only_rcx_compliant.py. A `MemorySpace`
 * is a byte array that grows on demand up to 1 MiB; `MemoryOperations` holds
 * it together with 1024 five-byte rule records (an opcode and a little-endian
 * u32), a gate per rule, a log of rule changes and the counters of the `fix`
 * primitive; an `RCXSystem` sweeps over all 1024 gates.
 *
 * The value-level functions below say what each operation does to the
 * memory and the counters; the classes are proved to follow them.
 * `hashlib.blake2b` is a function given to the constructors, and the clock
 * that `log_divergence` reads is a timestamp argument.
 */
module MemorySandbox {
  import opened Base
  import opened Bytes
  import opened RuleRecords

  const MaxMemBytes: int := 0x10_0000

  // ---------------------------------------------------------------------
  // MemorySpace, as values

  /** The bytes after `grow_to(pos)` succeeds: zeros appended until index `pos` exists. */
  function Grown(data: seq<byte>, pos: int): seq<byte> {
    if pos - |data| + 1 > 0 then data + Zeros(pos - |data| + 1) else data
  }

  /** The bytes after `grow_to(pos)`, which leaves them alone when it raises. */
  function AfterGrow(data: seq<byte>, pos: int): seq<byte> {
    if pos >= MaxMemBytes then data else Grown(data, pos)
  }

  /** The outcome of `grow_to(pos)`. */
  function GrowResult(pos: int): Result<()> {
    if pos >= MaxMemBytes then Err(MemoryError) else Ok(())
  }

  /** The index that `get_mem(pos)` and `set_mem(pos, _)` touch after growing, or the exception they raise. */
  function Slot(data: seq<byte>, pos: int): (r: Result<nat>)
    ensures r.Ok? ==> r.value < |Grown(data, pos)|
  {
    if pos >= MaxMemBytes then Err(MemoryError)
    else match PyIndex(pos, |Grown(data, pos)|)
      case None => Err(IndexError)
      case Some(i) => Ok(i)
  }

  function Forget<T>(r: Result<T>): Result<()> {
    if r.Err? then Err(r.error) else Ok(())
  }

  /** What `get_mem(pos)` returns. */
  function GetMemValue(data: seq<byte>, pos: int): Result<byte> {
    var i :- Slot(data, pos);
    Ok(Grown(data, pos)[i])
  }

  /** `val & 0xFF`. */
  function LowByte(val: int): byte {
    (val % 256) as byte
  }

  /** The bytes after `set_mem(pos, val)`. */
  function SetMemData(data: seq<byte>, pos: int, val: int): seq<byte> {
    match Slot(data, pos)
    case Err(_) => AfterGrow(data, pos)
    case Ok(i) => Grown(data, pos)[i := LowByte(val)]
  }

  /** The bytes after `_delta(p)`: the byte at `p` XORed with 0xFF. */
  function DeltaData(data: seq<byte>, p: int): seq<byte> {
    match Slot(data, p)
    case Err(_) => AfterGrow(data, p)
    case Ok(i) => Grown(data, p)[i := Flip(Grown(data, p)[i])]
  }

  lemma {:induction false} GrowStable(data: seq<byte>, pos: int)
    requires pos < MaxMemBytes
    ensures Grown(Grown(data, pos), pos) == Grown(data, pos)
    ensures Slot(Grown(data, pos), pos) == Slot(data, pos)
  {
  }

  /** `_delta` is `get_mem` followed by `set_mem` of the flipped byte. */
  lemma {:induction false} DeltaIsGetThenSet(data: seq<byte>, p: int)
    requires GetMemValue(data, p).Ok?
    ensures var v := GetMemValue(data, p).value;
      && SetMemData(AfterGrow(data, p), p, Flip(v) as int) == DeltaData(data, p)
      && Forget(Slot(AfterGrow(data, p), p)) == Forget(Slot(data, p))
  {
    GrowStable(data, p);
    var v := GetMemValue(data, p).value;
    assert LowByte(Flip(v) as int) == Flip(v);
  }

  /**
   * `grow_to(pos)` raises MemoryError exactly from 2^20 on and then changes
   * nothing; otherwise the buffer is at least `pos + 1` long, keeps its bytes
   * and is padded with zeros.
   */
  lemma {:induction false} GrowToFacts(data: seq<byte>, pos: int)
    ensures GrowResult(pos).Err? <==> pos >= MaxMemBytes
    ensures pos >= MaxMemBytes ==> AfterGrow(data, pos) == data
    ensures pos < MaxMemBytes ==>
      var g := AfterGrow(data, pos);
      && |g| == (if pos + 1 > |data| then pos + 1 else |data|)
      && g[..|data|] == data
      && forall j :: |data| <= j < |g| ==> g[j] == 0
  {
  }

  /**
   * An access raises MemoryError from 2^20 on and IndexError below `-len`;
   * a non-negative position under the cap is reached directly, and a
   * failed access leaves the bytes as they were.
   */
  lemma {:induction false} SlotFacts(data: seq<byte>, pos: int)
    ensures Slot(data, pos).Err? <==> pos >= MaxMemBytes || pos < -|data|
    ensures Slot(data, pos).Err? ==> AfterGrow(data, pos) == data
    ensures 0 <= pos < MaxMemBytes ==> Slot(data, pos) == Ok(pos)
  {
  }

  /** After `set_mem(pos, val)`, `get_mem(pos)` returns `val & 0xFF`, and no other byte changed. */
  lemma {:induction false} SetThenGet(data: seq<byte>, pos: int, val: int)
    requires Slot(data, pos).Ok?
    ensures GetMemValue(SetMemData(data, pos, val), pos) == Ok(LowByte(val))
    ensures var i := Slot(data, pos).value;
      var after := SetMemData(data, pos, val);
      |after| == |Grown(data, pos)| && forall j :: 0 <= j < |after| && j != i ==> after[j] == Grown(data, pos)[j]
  {
    GrowStable(data, pos);
  }

  /** `_delta` applied twice at the same address restores every byte (the buffer may have grown). */
  lemma {:induction false} DeltaTwiceRestores(data: seq<byte>, p: int)
    ensures DeltaData(DeltaData(data, p), p) == AfterGrow(data, p)
  {
    match Slot(data, p)
    case Err(_) =>
      SlotFacts(data, p);
    case Ok(i) =>
      GrowStable(data, p);
      var g := Grown(data, p);
      assert Flip(Flip(g[i])) == g[i];
      assert g[i := Flip(g[i])][i := g[i]] == g;
  }

  // ---------------------------------------------------------------------
  // the `fix` counter

  /** What `_fix_state[addr]` holds: the last digest seen there and how many times in a row it repeated. */
  datatype FixEntry = FixEntry(digest: seq<byte>, count: nat)

  /**
   * The counters after `_fix(p)`: the digest of the (up to) 16 bytes at `p`
   * is stored, with the count one more than before when it repeats the last
   * digest at `p` and zero otherwise.
   */
  function FixState(fs: map<int, FixEntry>, data: seq<byte>, p: int, digest: seq<byte> -> seq<byte>): map<int, FixEntry> {
    var dig := digest(PySlice(data, p, p + 16));
    var cnt := if p in fs && fs[p].digest == dig then fs[p].count + 1 else 0;
    fs[p := FixEntry(dig, cnt)]
  }

  /**
   * Two `_fix` calls at one address over unchanged bytes count one repeat,
   * a first call at an address starts at zero, and other addresses keep
   * their counters.
   */
  lemma {:induction false} FixCountsRepeats(fs: map<int, FixEntry>, data: seq<byte>, p: int, digest: seq<byte> -> seq<byte>)
    ensures var once := FixState(fs, data, p, digest);
      FixState(once, data, p, digest)[p].count == once[p].count + 1
    ensures p !in fs ==> FixState(fs, data, p, digest)[p].count == 0
    ensures forall a :: a in fs && a != p ==> a in FixState(fs, data, p, digest) && FixState(fs, data, p, digest)[a] == fs[a]
  {
  }

  // ---------------------------------------------------------------------
  // rules and gates

  /** The primitive that a gate runs. */
  datatype GateOp = Read | Delta | Fix | NoOp

  /**
   * An entry of `gate_table`: the initial `_no_op`, or the closure that
   * `build_gate_from_rule` makes, keeping the primitive and its default
   * parameter.
   */
  datatype Gate = Bare | Built(op: GateOp, param: nat)

  /** `{0: _nabla_r, 1: _delta, 2: _fix}.get(op, _no_op)`. */
  function OpOf(b: byte): GateOp {
    if b == 0 then Read else if b == 1 then Delta else if b == 2 then Fix else NoOp
  }

  /** The gate that `build_gate_from_rule(rid)` makes from rule `rid`: its opcode and the u32 after it. */
  function GateOf(ruleMem: seq<byte>, rid: nat): Gate
    requires |ruleMem| == 5 * MaxRules && rid < MaxRules
  {
    Built(OpOf(RuleOpcode(ruleMem, rid)), RuleArg(ruleMem, rid))
  }

  /** The gate rebuilt after `mutate_rule` runs the new rule's opcode with the u32 that follows it. */
  lemma {:induction false} MutatedGateReadsRule(ruleMem: seq<byte>, rid: nat, rule: seq<byte>)
    requires |ruleMem| == 5 * MaxRules && rid < MaxRules && |rule| == 5
    ensures GateOf(WriteRule(ruleMem, rid, rule), rid) == Built(OpOf(rule[0]), DecodeLE(rule[1..]))
  {
    WriteRuleFacts(ruleMem, rid, rule);
  }

  /** Opcodes 0, 1 and 2 choose read, delta and fix; every other byte a no-op. */
  lemma {:induction false} OpcodeTable(b: byte)
    ensures OpOf(0) == Read && OpOf(1) == Delta && OpOf(2) == Fix
    ensures b > 2 ==> OpOf(b) == NoOp
  {
  }

  /** One entry of `divergence_log`: the time of the change, the rule id and the new rule bytes. */
  datatype LogEntry = LogEntry(time: int, rid: int, rule: seq<byte>)

  // ---------------------------------------------------------------------
  // dispatch, as values

  /** The state that gates change: the memory bytes and the `fix` counters. */
  datatype Machine = Machine(data: seq<byte>, fixState: map<int, FixEntry>)

  /** What running a primitive returns and the state it leaves. */
  datatype Effect = Effect(result: Result<()>, machine: Machine)

  /** Running primitive `op` at address `p`. */
  function OpEffect(op: GateOp, p: int, m: Machine, digest: seq<byte> -> seq<byte>): Effect {
    match op
    case Read => Effect(Forget(GetMemValue(m.data, p)), m.(data := AfterGrow(m.data, p)))
    case Delta => Effect(Forget(Slot(m.data, p)), m.(data := DeltaData(m.data, p)))
    case Fix => Effect(Ok(()), m.(fixState := FixState(m.fixState, m.data, p, digest)))
    case NoOp => Effect(Ok(()), m)
  }

  /** `gate_table[rid](rid)`: the address passed is `rid`, which overrides the parameter stored in the gate. */
  function DispatchEffect(gates: seq<Gate>, rid: int, m: Machine, digest: seq<byte> -> seq<byte>): Effect
    requires |gates| == MaxRules
  {
    match PyIndex(rid, MaxRules)
    case None => Effect(Err(IndexError), m)
    case Some(i) => if gates[i].Bare? then Effect(Ok(()), m) else OpEffect(gates[i].op, rid, m, digest)
  }

  /** The state after dispatching rids `0 .. n-1` in order. */
  function SweepUpTo(gates: seq<Gate>, m: Machine, n: nat, digest: seq<byte> -> seq<byte>): Machine
    requires |gates| == MaxRules && n <= MaxRules
  {
    if n == 0 then m else DispatchEffect(gates, n - 1, SweepUpTo(gates, m, n - 1, digest), digest).machine
  }

  /** The state after `k` iterations of `run_continuous`, each a sweep over all rids. */
  function Run(gates: seq<Gate>, m: Machine, k: nat, digest: seq<byte> -> seq<byte>): Machine
    requires |gates| == MaxRules
  {
    if k == 0 then m else SweepUpTo(gates, Run(gates, m, k - 1, digest), MaxRules, digest)
  }

  /** The parameter kept in a gate plays no part in dispatch: only its primitive and the rid do. */
  lemma {:induction false} DispatchIgnoresStoredParameter(gates: seq<Gate>, rid: nat, op: GateOp, p1: nat, p2: nat, m: Machine, digest: seq<byte> -> seq<byte>)
    requires |gates| == MaxRules && rid < MaxRules
    ensures DispatchEffect(gates[rid := Built(op, p1)], rid, m, digest) == DispatchEffect(gates[rid := Built(op, p2)], rid, m, digest)
    ensures DispatchEffect(gates[rid := Built(op, p1)], rid, m, digest) == OpEffect(op, rid, m, digest)
  {
  }

  /** A dispatch over rids in range never raises. */
  lemma {:induction false} DispatchInRangeSucceeds(gates: seq<Gate>, rid: nat, m: Machine, digest: seq<byte> -> seq<byte>)
    requires |gates| == MaxRules && rid < MaxRules
    ensures DispatchEffect(gates, rid, m, digest).result == Ok(())
  {
    SlotFacts(m.data, rid);
  }

  /** Iterations compose: `a` iterations then `b` more are `a + b` iterations. */
  lemma {:induction false} RunAdditive(gates: seq<Gate>, m: Machine, a: nat, b: nat, digest: seq<byte> -> seq<byte>)
    requires |gates| == MaxRules
    ensures Run(gates, Run(gates, m, a, digest), b, digest) == Run(gates, m, a + b, digest)
    decreases b
  {
    if b > 0 {
      RunAdditive(gates, m, a, b - 1, digest);
    }
  }

  /** With every gate still the initial no-op, sweeps change nothing. */
  lemma {:induction false} BareSweepIsIdentity(gates: seq<Gate>, m: Machine, n: nat, digest: seq<byte> -> seq<byte>)
    requires |gates| == MaxRules && n <= MaxRules
    requires forall i :: 0 <= i < MaxRules ==> gates[i] == Bare
    ensures SweepUpTo(gates, m, n, digest) == m
  {
    if n > 0 {
      BareSweepIsIdentity(gates, m, n - 1, digest);
    }
  }

  lemma {:induction false} BareRunIsIdentity(gates: seq<Gate>, m: Machine, k: nat, digest: seq<byte> -> seq<byte>)
    requires |gates| == MaxRules
    requires forall i :: 0 <= i < MaxRules ==> gates[i] == Bare
    ensures Run(gates, m, k, digest) == m
  {
    if k > 0 {
      BareRunIsIdentity(gates, m, k - 1, digest);
      BareSweepIsIdentity(gates, m, MaxRules, digest);
    }
  }

  // ---------------------------------------------------------------------
  // the classes

  class MemorySpace {
    var data: seq<byte>

    /** A fresh space holds one zero byte. */
    constructor ()
      ensures data == [0]
    {
      data := [0];
    }

    method GrowTo(pos: int) returns (r: Result<()>)
      modifies this
      ensures r == GrowResult(pos) && data == AfterGrow(old(data), pos)
    {
      if pos >= MaxMemBytes {
        return Err(MemoryError);
      }
      var need := pos - |data| + 1;
      if need > 0 {
        data := data + Zeros(need);
      }
      return Ok(());
    }

    method GetMem(pos: int) returns (r: Result<byte>)
      modifies this
      ensures r == GetMemValue(old(data), pos) && data == AfterGrow(old(data), pos)
    {
      var g := GrowTo(pos);
      if g.Err? {
        return Err(g.error);
      }
      match PyIndex(pos, |data|) {
        case None =>
          return Err(IndexError);
        case Some(i) =>
          return Ok(data[i]);
      }
    }

    method SetMem(pos: int, val: int) returns (r: Result<()>)
      modifies this
      ensures r == Forget(Slot(old(data), pos)) && data == SetMemData(old(data), pos, val)
    {
      var g := GrowTo(pos);
      if g.Err? {
        return Err(g.error);
      }
      match PyIndex(pos, |data|) {
        case None =>
          return Err(IndexError);
        case Some(i) =>
          data := data[i := LowByte(val)];
          return Ok(());
      }
    }
  }

  class MemoryOperations {
    const mem: MemorySpace
    const ruleMem: array<byte>
    var gateTable: seq<Gate>
    var divergenceLog: seq<LogEntry>
    var fixState: map<int, FixEntry>
    /** `hashlib.blake2b(..., digest_size=8).digest()`. */
    const digest8: seq<byte> -> seq<byte>

    predicate Valid()
      reads this
    {
      ruleMem.Length == 5 * MaxRules && |gateTable| == MaxRules
    }

    constructor (digest8: seq<byte> -> seq<byte>)
      ensures Valid() && fresh(mem) && fresh(ruleMem)
      ensures mem.data == [0] && ruleMem[..] == Zeros(5 * MaxRules)
      ensures gateTable == seq(MaxRules, _ => Bare) && divergenceLog == [] && fixState == map[]
      ensures this.digest8 == digest8
    {
      mem := new MemorySpace();
      ruleMem := new byte[5 * MaxRules](_ => 0);
      gateTable := seq(MaxRules, _ => Bare);
      divergenceLog := [];
      fixState := map[];
      this.digest8 := digest8;
    }

    /** `_nabla_r(p)`: a read whose value is dropped; it may still grow the memory or raise. */
    method NablaR(p: int) returns (r: Result<()>)
      modifies mem
      ensures r == Forget(GetMemValue(old(mem.data), p)) && mem.data == AfterGrow(old(mem.data), p)
    {
      var v := mem.GetMem(p);
      r := Forget(v);
    }

    method Delta(p: int) returns (r: Result<()>)
      modifies mem
      ensures r == Forget(Slot(old(mem.data), p)) && mem.data == DeltaData(old(mem.data), p)
    {
      ghost var data0 := mem.data;
      var v := mem.GetMem(p);
      if v.Err? {
        return Err(v.error);
      }
      DeltaIsGetThenSet(data0, p);
      r := mem.SetMem(p, Flip(v.value) as int);
    }

    method Fix(p: int)
      modifies this`fixState
      ensures fixState == FixState(old(fixState), mem.data, p, digest8)
    {
      var dig := digest8(PySlice(mem.data, p, p + 16));
      var cnt := 0;
      if p in fixState && fixState[p].digest == dig {
        cnt := fixState[p].count + 1;
      }
      fixState := fixState[p := FixEntry(dig, cnt)];
    }

    method BuildGateFromRule(rid: int)
      requires Valid() && 0 <= rid < MaxRules
      modifies this`gateTable
      ensures Valid() && gateTable == old(gateTable)[rid := GateOf(ruleMem[..], rid)]
    {
      var op := ruleMem[rid * 5];
      var arg := DecodeLE(ruleMem[rid * 5 + 1..rid * 5 + 5]);
      assert op == RuleOpcode(ruleMem[..], rid) && arg == RuleArg(ruleMem[..], rid);
      gateTable := gateTable[rid := Built(OpOf(op), arg)];
    }

    /**
     * `mutate_rule(rid, rule)`: IndexError for a rid outside 0..1023, then
     * ValueError for a rule that is not five bytes; otherwise the rule is
     * written, its gate rebuilt and the change logged at time `now`.
     */
    method MutateRule(rid: int, rule: seq<byte>, now: int) returns (r: Result<()>)
      requires Valid()
      modifies ruleMem, this`gateTable, this`divergenceLog
      ensures Valid()
      ensures r == (if !(0 <= rid < MaxRules) then Err(IndexError) else if |rule| != 5 then Err(ValueError) else Ok(()))
      ensures r.Err? ==> ruleMem[..] == old(ruleMem[..]) && gateTable == old(gateTable) && divergenceLog == old(divergenceLog)
      ensures r.Ok? ==>
        && ruleMem[..] == WriteRule(old(ruleMem[..]), rid, rule)
        && gateTable == old(gateTable)[rid := GateOf(ruleMem[..], rid)]
        && divergenceLog == old(divergenceLog) + [LogEntry(now, rid, rule)]
    {
      if !(0 <= rid < MaxRules) {
        return Err(IndexError);
      }
      if |rule| != 5 {
        return Err(ValueError);
      }
      ghost var before := ruleMem[..];
      forall k | 0 <= k < 5 {
        ruleMem[rid * 5 + k] := rule[k];
      }
      assert ruleMem[..] == WriteRule(before, rid, rule);
      BuildGateFromRule(rid);
      divergenceLog := divergenceLog + [LogEntry(now, rid, rule)];
      return Ok(());
    }
  }

  class RCXSystem {
    const ops: MemoryOperations
    /** `hashlib.blake2b(..., digest_size=16)`; `hash_state` returns the hex form of this digest. */
    const digest16: seq<byte> -> seq<byte>

    predicate Valid()
      reads this, ops
    {
      ops.Valid()
    }

    constructor (digest8: seq<byte> -> seq<byte>, digest16: seq<byte> -> seq<byte>)
      ensures Valid() && fresh(ops) && fresh(ops.mem) && fresh(ops.ruleMem)
      ensures ops.mem.data == [0] && ops.ruleMem[..] == Zeros(5 * MaxRules)
      ensures ops.gateTable == seq(MaxRules, _ => Bare) && ops.divergenceLog == [] && ops.fixState == map[]
      ensures ops.digest8 == digest8 && this.digest16 == digest16
    {
      ops := new MemoryOperations(digest8);
      this.digest16 := digest16;
    }

    /** `gate_dispatch(rid)`. */
    method GateDispatch(rid: int) returns (r: Result<()>)
      requires Valid()
      modifies ops`fixState, ops.mem
      ensures Effect(r, Machine(ops.mem.data, ops.fixState))
        == DispatchEffect(ops.gateTable, rid, old(Machine(ops.mem.data, ops.fixState)), ops.digest8)
    {
      match PyIndex(rid, MaxRules) {
        case None =>
          return Err(IndexError);
        case Some(i) =>
          var g := ops.gateTable[i];
          if g.Bare? {
            return Ok(());
          }
          match g.op {
            case Read =>
              r := ops.NablaR(rid);
            case Delta =>
              r := ops.Delta(rid);
            case Fix =>
              ops.Fix(rid);
              r := Ok(());
            case NoOp =>
              r := Ok(());
          }
      }
    }

    /** One pass of `run_continuous`: `gate_dispatch(rid)` for every rid in order. */
    method Sweep()
      requires Valid()
      modifies ops`fixState, ops.mem
      ensures Machine(ops.mem.data, ops.fixState) == SweepUpTo(ops.gateTable, old(Machine(ops.mem.data, ops.fixState)), MaxRules, ops.digest8)
    {
      ghost var m0 := Machine(ops.mem.data, ops.fixState);
      var rid := 0;
      while rid < MaxRules
        invariant 0 <= rid <= MaxRules
        invariant Machine(ops.mem.data, ops.fixState) == SweepUpTo(ops.gateTable, m0, rid, ops.digest8)
      {
        var _ := GateDispatch(rid);
        rid := rid + 1;
      }
    }

    /**
     * `run_continuous(manual_halt_after)` for a given bound: that many sweeps
     * (none for a bound below one), then the iteration count and the state digest.
     */
    method RunContinuous(haltAfter: int) returns (iters: nat, hash: seq<byte>)
      requires Valid()
      modifies ops`fixState, ops.mem
      ensures iters == (if haltAfter > 0 then haltAfter else 0)
      ensures Machine(ops.mem.data, ops.fixState) == Run(ops.gateTable, old(Machine(ops.mem.data, ops.fixState)), iters, ops.digest8)
      ensures hash == digest16(ops.mem.data)
    {
      ghost var m0 := Machine(ops.mem.data, ops.fixState);
      var it := 0;
      while it < haltAfter
        invariant 0 <= it && (haltAfter > 0 ==> it <= haltAfter) && (haltAfter <= 0 ==> it == 0)
        invariant Machine(ops.mem.data, ops.fixState) == Run(ops.gateTable, m0, it, ops.digest8)
        decreases haltAfter - it
      {
        Sweep();
        it := it + 1;
      }
      return it, digest16(ops.mem.data);
    }

    /** `emit_seed(n)`. */
    method EmitSeed(n: int) returns (r: Result<seq<byte>>)
      requires Valid()
      ensures r == Seed(ops.ruleMem[..], n)
    {
      if n < 0 || n >= Pow256(8) {
        return Err(StructError);
      }
      var k := if n * 5 < ops.ruleMem.Length then n * 5 else ops.ruleMem.Length;
      return Ok(SeedMagic + EncodeLE(n, 8) + ops.ruleMem[..k]);
    }
  }
}
