/**
 * The rule memory that both sandboxes keep: 1024 records of five bytes, an
 * opcode followed by a little-endian u32 argument, written with
 * `rule_mem[rid*5:rid*5+5] = rule` and read by `build_gate_from_rule`.
 */
module RuleRecords {
  import opened Bytes

  const MaxRules: nat := 1024

  /** The rule memory after `rule_mem[rid*5:rid*5+5] = rule`. */
  function WriteRule(ruleMem: seq<byte>, rid: nat, rule: seq<byte>): (r: seq<byte>)
    requires |ruleMem| == 5 * MaxRules && rid < MaxRules && |rule| == 5
    ensures |r| == |ruleMem|
  {
    ruleMem[..rid * 5] + rule + ruleMem[rid * 5 + 5..]
  }

  /** The five bytes of rule `rid`. */
  function RuleAt(ruleMem: seq<byte>, rid: nat): seq<byte>
    requires |ruleMem| == 5 * MaxRules && rid < MaxRules
  {
    ruleMem[rid * 5..rid * 5 + 5]
  }

  /** `rule_mem[rid * 5]`. */
  function RuleOpcode(ruleMem: seq<byte>, rid: nat): byte
    requires |ruleMem| == 5 * MaxRules && rid < MaxRules
  {
    ruleMem[rid * 5]
  }

  /** `struct.unpack_from('<I', rule_mem, rid * 5 + 1)[0]`. */
  function RuleArg(ruleMem: seq<byte>, rid: nat): nat
    requires |ruleMem| == 5 * MaxRules && rid < MaxRules
  {
    DecodeLE(ruleMem[rid * 5 + 1..rid * 5 + 5])
  }

  /**
   * Writing rule `rid` replaces exactly its five bytes: afterwards its
   * opcode is the rule's first byte and its argument the u32 of the other
   * four, and every other record is as it was.
   */
  lemma {:induction false} WriteRuleFacts(ruleMem: seq<byte>, rid: nat, rule: seq<byte>)
    requires |ruleMem| == 5 * MaxRules && rid < MaxRules && |rule| == 5
    ensures RuleAt(WriteRule(ruleMem, rid, rule), rid) == rule
    ensures RuleOpcode(WriteRule(ruleMem, rid, rule), rid) == rule[0]
    ensures RuleArg(WriteRule(ruleMem, rid, rule), rid) == DecodeLE(rule[1..])
    ensures forall other :: 0 <= other < MaxRules && other != rid ==> RuleAt(WriteRule(ruleMem, rid, rule), other) == RuleAt(ruleMem, other)
  {
    var w := WriteRule(ruleMem, rid, rule);
    assert forall j :: 0 <= j < |w| ==> w[j] == if rid * 5 <= j < rid * 5 + 5 then rule[j - rid * 5] else ruleMem[j];
    assert RuleAt(w, rid) == rule;
    assert w[rid * 5 + 1..rid * 5 + 5] == rule[1..];
    forall other | 0 <= other < MaxRules && other != rid
      ensures RuleAt(w, other) == RuleAt(ruleMem, other)
    {
      assert other < rid || other > rid;
    }
  }

  /** A rule written as an opcode and a little-endian u32 reads back as that opcode and that argument. */
  lemma {:induction false} EncodedRule(ruleMem: seq<byte>, rid: nat, op: byte, arg: nat)
    requires |ruleMem| == 5 * MaxRules && rid < MaxRules && arg < Pow256(4)
    ensures RuleOpcode(WriteRule(ruleMem, rid, [op] + EncodeLE(arg, 4)), rid) == op
    ensures RuleArg(WriteRule(ruleMem, rid, [op] + EncodeLE(arg, 4)), rid) == arg
  {
    var rule := [op] + EncodeLE(arg, 4);
    WriteRuleFacts(ruleMem, rid, rule);
    assert rule[1..] == EncodeLE(arg, 4);
    DecodeEncode(arg, 4);
  }
}
