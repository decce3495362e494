/**
 * The two structural matchers over one method's instruction list, the
 * rewrite each drives, and the in-place loops that perform the rewrites.
 * Both loops run `for (i = 0; i < Count - 1; i++)`, so neither rewrite
 * changes the last instruction of a body. The login loop never reads it; the
 * static-field loop reads it only as the `Next` of index `Count - 2`.
 */
module InstructionPatches {
  import opened Cil
  import opened Endpoints
  import Targets

  // ---- Static-field initializer: `ldstr <literal>; stsfld <fieldName>` ----

  /** Instruction `i` loads a string constant and the next one stores into static field `fieldName`. */
  predicate IsStaticFieldInitializer(s: seq<Instruction>, i: int, fieldName: string)
  {
    0 <= i < |s| - 1
    && s[i].opcode == Ldstr
    && s[i + 1].opcode == Stsfld
    && s[i + 1].operand.FieldReference?
    && s[i + 1].operand.name == fieldName
  }

  /** `s` with the loaded literal of every initializer of `fieldName` replaced by `value`. */
  function StaticFieldPatched(s: seq<Instruction>, fieldName: string, value: string): seq<Instruction>
  {
    seq(|s|, i requires 0 <= i < |s| =>
      if IsStaticFieldInitializer(s, i, fieldName) then s[i].(operand := StrLit(value)) else s[i])
  }

  /**
   * Every initializer of the field gets the new literal, all of them and not
   * only the first; every other instruction, and every opcode, is kept.
   */
  lemma StaticFieldPatchedChangesOnlyMatches(s: seq<Instruction>, fieldName: string, value: string)
    ensures |StaticFieldPatched(s, fieldName, value)| == |s|
    ensures forall i :: 0 <= i < |s| ==> StaticFieldPatched(s, fieldName, value)[i].opcode == s[i].opcode
    ensures forall i :: 0 <= i < |s| && IsStaticFieldInitializer(s, i, fieldName) ==>
      StaticFieldPatched(s, fieldName, value)[i].operand == StrLit(value)
    ensures forall i :: 0 <= i < |s| && !IsStaticFieldInitializer(s, i, fieldName) ==>
      StaticFieldPatched(s, fieldName, value)[i] == s[i]
  {
  }

  /** Only `ldstr` instructions followed by a `stsfld` ever change. */
  lemma StaticFieldPatchedChangesOnlyLoads(s: seq<Instruction>, fieldName: string, value: string)
    ensures forall i :: 0 <= i < |s| && StaticFieldPatched(s, fieldName, value)[i] != s[i] ==>
      i < |s| - 1 && s[i].opcode == Ldstr && s[i + 1].opcode == Stsfld
  {
  }

  /**
   * Whether an index is an initializer (of any field) is decided by opcodes
   * and `stsfld` operands, which the rewrite never touches.
   */
  lemma {:induction false} StaticFieldMatchStable(s: seq<Instruction>, fieldName: string, value: string, other: string)
    ensures forall i ::
      IsStaticFieldInitializer(StaticFieldPatched(s, fieldName, value), i, other) <==> IsStaticFieldInitializer(s, i, other)
  {
    var r := StaticFieldPatched(s, fieldName, value);
    forall i | 0 <= i < |s| - 1
      ensures IsStaticFieldInitializer(r, i, other) <==> IsStaticFieldInitializer(s, i, other)
    {
      assert r[i].opcode == s[i].opcode;
      assert r[i + 1].opcode == s[i + 1].opcode;
      assert s[i + 1].opcode == Stsfld ==> !IsStaticFieldInitializer(s, i + 1, fieldName);
    }
  }

  /** Patching a field twice with the same literal is patching it once. */
  lemma {:induction false} StaticFieldPatchedIdempotent(s: seq<Instruction>, fieldName: string, value: string)
    ensures StaticFieldPatched(StaticFieldPatched(s, fieldName, value), fieldName, value)
      == StaticFieldPatched(s, fieldName, value)
  {
    StaticFieldMatchStable(s, fieldName, value, fieldName);
  }

  /** Patches of two different fields commute: the order of the two status patches does not matter. */
  lemma {:induction false} StaticFieldPatchesCommute(s: seq<Instruction>, f: string, v: string, g: string, w: string)
    requires f != g
    ensures StaticFieldPatched(StaticFieldPatched(s, f, v), g, w)
      == StaticFieldPatched(StaticFieldPatched(s, g, w), f, v)
  {
    StaticFieldMatchStable(s, f, v, g);
    StaticFieldMatchStable(s, g, w, f);
  }

  // ---- Login address: any operand whose text is the original login endpoint ----

  /** Instruction `i` (not the last) has an operand whose `ToString()` is the original login address. */
  predicate IsLoginAddressOperand(s: seq<Instruction>, i: int)
  {
    0 <= i < |s| - 1
    && s[i].operand != NoOperand
    && OperandText(s[i].operand) == Targets.OriginalLoginApiAddress
  }

  /** `s` with every such operand replaced by the token endpoint of `serverIp`, whatever the opcode. */
  function LoginAddressPatched(s: seq<Instruction>, serverIp: string): seq<Instruction>
  {
    seq(|s|, i requires 0 <= i < |s| =>
      if IsLoginAddressOperand(s, i) then s[i].(operand := StrLit(FormatTokenEndpointAddress(serverIp))) else s[i])
  }

  /** Every matching operand is rewritten, of any opcode; every other instruction, and every opcode, is kept. */
  lemma LoginAddressPatchedChangesOnlyMatches(s: seq<Instruction>, serverIp: string)
    ensures |LoginAddressPatched(s, serverIp)| == |s|
    ensures forall i :: 0 <= i < |s| ==> LoginAddressPatched(s, serverIp)[i].opcode == s[i].opcode
    ensures forall i :: 0 <= i < |s| && IsLoginAddressOperand(s, i) ==>
      LoginAddressPatched(s, serverIp)[i].operand == StrLit(FormatTokenEndpointAddress(serverIp))
    ensures forall i :: 0 <= i < |s| && !IsLoginAddressOperand(s, i) ==>
      LoginAddressPatched(s, serverIp)[i] == s[i]
  {
  }

  /** After the rewrite no examined instruction holds the original address any more. */
  lemma {:induction false} LoginAddressPatchedLeavesNoMatch(s: seq<Instruction>, serverIp: string)
    ensures forall i :: !IsLoginAddressOperand(LoginAddressPatched(s, serverIp), i)
  {
    var r := LoginAddressPatched(s, serverIp);
    TokenEndpointIsNotOriginal(serverIp);
    forall i | 0 <= i < |r| - 1
      ensures !IsLoginAddressOperand(r, i)
    {
      if IsLoginAddressOperand(s, i) {
        assert OperandText(r[i].operand) == FormatTokenEndpointAddress(serverIp);
      } else {
        assert r[i] == s[i];
      }
    }
  }

  /** Running the login rewrite a second time changes nothing. */
  lemma {:induction false} LoginAddressPatchedIdempotent(s: seq<Instruction>, serverIp: string)
    ensures LoginAddressPatched(LoginAddressPatched(s, serverIp), serverIp) == LoginAddressPatched(s, serverIp)
  {
    var r := LoginAddressPatched(s, serverIp);
    LoginAddressPatchedLeavesNoMatch(s, serverIp);
    assert forall i :: 0 <= i < |r| ==> LoginAddressPatched(r, serverIp)[i] == r[i];
  }

  /** Neither rewrite touches the last instruction, so bodies of fewer than two instructions are unchanged. */
  lemma LastInstructionUntouched(s: seq<Instruction>, fieldName: string, value: string, serverIp: string)
    ensures |s| > 0 ==> StaticFieldPatched(s, fieldName, value)[|s| - 1] == s[|s| - 1]
    ensures |s| > 0 ==> LoginAddressPatched(s, serverIp)[|s| - 1] == s[|s| - 1]
    ensures |s| <= 1 ==> StaticFieldPatched(s, fieldName, value) == s && LoginAddressPatched(s, serverIp) == s
  {
  }

  // ---- The loops, over the instruction list in place ----

  /** The index loop of `ReplaceStaticStringField` over one `.cctor` body. */
  method ReplaceStaticStringFieldInPlace(instructions: array<Instruction>, fieldName: string, value: string)
    modifies instructions
    ensures instructions[..] == StaticFieldPatched(old(instructions[..]), fieldName, value)
  {
    ghost var original := instructions[..];
    var i := 0;
    while i < instructions.Length - 1
      invariant 0 <= i <= instructions.Length
      invariant forall k :: 0 <= k < i ==> instructions[k] == StaticFieldPatched(original, fieldName, value)[k]
      invariant forall k :: i <= k < instructions.Length ==> instructions[k] == original[k]
    {
      var instruction := instructions[i];
      var next := instructions[i + 1];
      if instruction.opcode == Ldstr && next.opcode == Stsfld && next.operand.FieldReference? && next.operand.name == fieldName {
        instructions[i] := instruction.(operand := StrLit(value));
      }
      i := i + 1;
    }
  }

  /** The index loop of `ReplaceLoginServerIp` over one method body. */
  method ReplaceLoginAddressInPlace(instructions: array<Instruction>, serverIp: string)
    modifies instructions
    ensures instructions[..] == LoginAddressPatched(old(instructions[..]), serverIp)
  {
    ghost var original := instructions[..];
    var i := 0;
    while i < instructions.Length - 1
      invariant 0 <= i <= instructions.Length
      invariant forall k :: 0 <= k < i ==> instructions[k] == LoginAddressPatched(original, serverIp)[k]
      invariant forall k :: i <= k < instructions.Length ==> instructions[k] == original[k]
    {
      var instruction := instructions[i];
      assert instruction == original[i];
      assert IsLoginAddressOperand(original, i) <==>
        (instruction.operand != NoOperand && OperandText(instruction.operand) == Targets.OriginalLoginApiAddress);
      if instruction.operand != NoOperand && OperandText(instruction.operand) == Targets.OriginalLoginApiAddress {
        instructions[i] := instruction.(operand := StrLit(FormatTokenEndpointAddress(serverIp)));
      }
      i := i + 1;
    }
  }
}
