/**
 * The patches at the level of one type: the static-field patch over a type's
 * static initializers, the login-address patch over the methods of a type's
 * nested types, and the body substitution that disables encryption.
 */
module TypePatches {
  import opened Wrappers
  import opened Cil
  import opened Resolution
  import opened InstructionPatches
  import opened Targets

  /** `m` with its instruction list replaced; locals and handlers stay. */
  function WithInstructions(m: MethodDefinition, instructions: seq<Instruction>): MethodDefinition
    requires m.body.Some?
  {
    m.(body := Some(m.body.value.(instructions := instructions)))
  }

  // ---- ReplaceStaticStringField ----

  predicate IsStaticConstructor(m: MethodDefinition)
  {
    m.name == StaticConstructorName
  }

  /** A `.cctor` without a body: the source dereferences its null `Body` and throws. */
  predicate HasBodilessStaticConstructor(t: TypeDefinition)
  {
    exists i :: 0 <= i < |t.methods| && IsStaticConstructor(t.methods[i]) && t.methods[i].body.None?
  }

  function StaticFieldPatchedMethod(m: MethodDefinition, fieldName: string, value: string): MethodDefinition
  {
    if IsStaticConstructor(m) && m.body.Some?
    then WithInstructions(m, StaticFieldPatched(m.body.value.instructions, fieldName, value))
    else m
  }

  /** The type after `ReplaceStaticStringField`: every `.cctor` patched, or the null-body failure. */
  function StaticFieldPatchedType(t: TypeDefinition, fieldName: string, value: string): Result<TypeDefinition, PatchError>
  {
    if HasBodilessStaticConstructor(t) then Err(NullBody(StaticConstructorName))
    else Ok(t.(methods := seq(|t.methods|, i requires 0 <= i < |t.methods| =>
                              StaticFieldPatchedMethod(t.methods[i], fieldName, value))))
  }

  /**
   * Only the instruction lists of `.cctor` methods change, and those exactly as
   * `StaticFieldPatched` says; every other method, the type's names and its
   * nested types are untouched. It fails exactly on a `.cctor` without a body.
   */
  lemma StaticFieldPatchedTypeEffect(t: TypeDefinition, fieldName: string, value: string)
    ensures StaticFieldPatchedType(t, fieldName, value).Err? <==> HasBodilessStaticConstructor(t)
    ensures StaticFieldPatchedType(t, fieldName, value).Err? ==>
      StaticFieldPatchedType(t, fieldName, value).error == NullBody(StaticConstructorName)
    ensures StaticFieldPatchedType(t, fieldName, value).Ok? ==>
      var p := StaticFieldPatchedType(t, fieldName, value).value;
      && p.namespace == t.namespace && p.name == t.name && p.nestedTypes == t.nestedTypes
      && SameMethodNames(t, p)
      && (forall i :: 0 <= i < |t.methods| && !IsStaticConstructor(t.methods[i]) ==> p.methods[i] == t.methods[i])
      && (forall i :: 0 <= i < |t.methods| && IsStaticConstructor(t.methods[i]) ==>
            t.methods[i].body.Some? && p.methods[i].body.Some?
            && p.methods[i].body.value.instructions == StaticFieldPatched(t.methods[i].body.value.instructions, fieldName, value)
            && p.methods[i].body.value.variables == t.methods[i].body.value.variables
            && p.methods[i].body.value.handlers == t.methods[i].body.value.handlers)
  {
  }

  /** Patching a type's static field twice with the same literal is patching it once. */
  lemma {:induction false} StaticFieldPatchedTypeIdempotent(t: TypeDefinition, fieldName: string, value: string)
    requires StaticFieldPatchedType(t, fieldName, value).Ok?
    ensures StaticFieldPatchedType(StaticFieldPatchedType(t, fieldName, value).value, fieldName, value)
      == StaticFieldPatchedType(t, fieldName, value)
  {
    var p := StaticFieldPatchedType(t, fieldName, value).value;
    assert !HasBodilessStaticConstructor(p) by {
      forall i | 0 <= i < |p.methods| && IsStaticConstructor(p.methods[i])
        ensures p.methods[i].body.Some?
      {
        assert p.methods[i] == StaticFieldPatchedMethod(t.methods[i], fieldName, value);
      }
    }
    forall i | 0 <= i < |p.methods|
      ensures StaticFieldPatchedMethod(p.methods[i], fieldName, value) == p.methods[i]
    {
      var m := t.methods[i];
      if IsStaticConstructor(m) && m.body.Some? {
        StaticFieldPatchedIdempotent(m.body.value.instructions, fieldName, value);
      }
    }
    assert seq(|p.methods|, i requires 0 <= i < |p.methods| => StaticFieldPatchedMethod(p.methods[i], fieldName, value))
      == p.methods;
  }

  /** `ReplaceStaticStringField`: visits every method of `t`, and patches each `.cctor` body in place. */
  method ReplaceStaticStringField(t: TypeDefinition, fieldName: string, value: string) returns (r: Result<TypeDefinition, PatchError>)
    ensures r == StaticFieldPatchedType(t, fieldName, value)
  {
    var methods: seq<MethodDefinition> := [];
    var i := 0;
    while i < |t.methods|
      invariant 0 <= i <= |t.methods|
      invariant |methods| == i
      invariant forall k :: 0 <= k < i ==> !(IsStaticConstructor(t.methods[k]) && t.methods[k].body.None?)
      invariant forall k :: 0 <= k < i ==> methods[k] == StaticFieldPatchedMethod(t.methods[k], fieldName, value)
    {
      var m := t.methods[i];
      if m.name == StaticConstructorName {
        if m.body.None? {
          assert IsStaticConstructor(t.methods[i]) && t.methods[i].body.None?;
          return Err(NullBody(StaticConstructorName));
        }
        var body := m.body.value.instructions;
        var instructions := new Instruction[|body|](k requires 0 <= k < |body| => body[k]);
        assert instructions[..] == body;
        ReplaceStaticStringFieldInPlace(instructions, fieldName, value);
        m := WithInstructions(m, instructions[..]);
      }
      methods := methods + [m];
      i := i + 1;
    }
    assert !HasBodilessStaticConstructor(t);
    assert methods == seq(|t.methods|, k requires 0 <= k < |t.methods| => StaticFieldPatchedMethod(t.methods[k], fieldName, value));
    r := Ok(t.(methods := methods));
  }

  // ---- ReplaceLoginServerIp, below the `AuthenticationManager` lookup ----

  /** A method with a body gets the login rewrite; one without is skipped. */
  function LoginAddressPatchedMethod(m: MethodDefinition, serverIp: string): MethodDefinition
  {
    if m.body.Some? then WithInstructions(m, LoginAddressPatched(m.body.value.instructions, serverIp)) else m
  }

  function LoginAddressPatchedNestedType(t: TypeDefinition, serverIp: string): TypeDefinition
  {
    t.(methods := seq(|t.methods|, i requires 0 <= i < |t.methods| => LoginAddressPatchedMethod(t.methods[i], serverIp)))
  }

  /** The type after the login patch: the methods of each directly nested type are rewritten. */
  function LoginAddressPatchedType(auth: TypeDefinition, serverIp: string): TypeDefinition
  {
    auth.(nestedTypes := seq(|auth.nestedTypes|, j requires 0 <= j < |auth.nestedTypes| =>
                             LoginAddressPatchedNestedType(auth.nestedTypes[j], serverIp)))
  }

  /**
   * Only instruction lists of methods with a body, in the directly nested types,
   * change, and those as `LoginAddressPatched` says. The type's own methods,
   * its names, the nested types' names and their own nested types are kept.
   */
  lemma LoginAddressPatchedTypeEffect(auth: TypeDefinition, serverIp: string)
    ensures var p := LoginAddressPatchedType(auth, serverIp);
      && p.namespace == auth.namespace && p.name == auth.name && p.methods == auth.methods
      && |p.nestedTypes| == |auth.nestedTypes|
      && (forall j :: 0 <= j < |auth.nestedTypes| ==>
            var n, q := auth.nestedTypes[j], p.nestedTypes[j];
            && q.namespace == n.namespace && q.name == n.name && q.nestedTypes == n.nestedTypes
            && SameMethodNames(n, q)
            && (forall i :: 0 <= i < |n.methods| && n.methods[i].body.None? ==> q.methods[i] == n.methods[i])
            && (forall i :: 0 <= i < |n.methods| && n.methods[i].body.Some? ==>
                  q.methods[i].body.Some?
                  && q.methods[i].body.value.instructions == LoginAddressPatched(n.methods[i].body.value.instructions, serverIp)
                  && q.methods[i].body.value.variables == n.methods[i].body.value.variables
                  && q.methods[i].body.value.handlers == n.methods[i].body.value.handlers))
  {
  }

  /** Running the login patch over a type twice is running it once. */
  lemma {:induction false} LoginAddressPatchedTypeIdempotent(auth: TypeDefinition, serverIp: string)
    ensures LoginAddressPatchedType(LoginAddressPatchedType(auth, serverIp), serverIp) == LoginAddressPatchedType(auth, serverIp)
  {
    var p := LoginAddressPatchedType(auth, serverIp);
    forall j | 0 <= j < |p.nestedTypes|
      ensures LoginAddressPatchedNestedType(p.nestedTypes[j], serverIp) == p.nestedTypes[j]
    {
      var n := auth.nestedTypes[j];
      forall i | 0 <= i < |n.methods|
        ensures LoginAddressPatchedMethod(p.nestedTypes[j].methods[i], serverIp) == p.nestedTypes[j].methods[i]
      {
        if n.methods[i].body.Some? {
          LoginAddressPatchedIdempotent(n.methods[i].body.value.instructions, serverIp);
        }
      }
    }
  }

  /** The loops of `ReplaceLoginServerIp` over the nested types of `auth` and their methods. */
  method ReplaceLoginServerIpIn(auth: TypeDefinition, serverIp: string) returns (r: TypeDefinition)
    ensures r == LoginAddressPatchedType(auth, serverIp)
  {
    var nestedTypes: seq<TypeDefinition> := [];
    var j := 0;
    while j < |auth.nestedTypes|
      invariant 0 <= j <= |auth.nestedTypes|
      invariant |nestedTypes| == j
      invariant forall k :: 0 <= k < j ==> nestedTypes[k] == LoginAddressPatchedNestedType(auth.nestedTypes[k], serverIp)
    {
      var t := auth.nestedTypes[j];
      var methods: seq<MethodDefinition> := [];
      var i := 0;
      while i < |t.methods|
        invariant 0 <= i <= |t.methods|
        invariant |methods| == i
        invariant forall k :: 0 <= k < i ==> methods[k] == LoginAddressPatchedMethod(t.methods[k], serverIp)
      {
        var m := t.methods[i];
        if m.body.Some? {
          var body := m.body.value.instructions;
          var instructions := new Instruction[|body|](k requires 0 <= k < |body| => body[k]);
          assert instructions[..] == body;
          ReplaceLoginAddressInPlace(instructions, serverIp);
          m := WithInstructions(m, instructions[..]);
        }
        methods := methods + [m];
        i := i + 1;
      }
      nestedTypes := nestedTypes + [t.(methods := methods)];
      j := j + 1;
    }
    r := auth.(nestedTypes := nestedTypes);
  }

  // ---- DisableTrafficEncription, below the `NetworkManager` lookup ----

  /**
   * `GetMethod(t, recipient).Body = GetMethod(t, donor).Body`; the recipient
   * is looked up first, as C# evaluates the left-hand side first.
   */
  function BodySubstituted(t: TypeDefinition, recipient: string, donor: string): Result<TypeDefinition, PatchError>
  {
    var r :- GetMethod(t, recipient);
    var d :- GetMethod(t, donor);
    Ok(t.(methods := t.methods[r := t.methods[r].(body := t.methods[d].body)]))
  }

  /** The two substitutions of `DisableTrafficEncription`, the second on the result of the first. */
  function EncryptionDisabledType(t: TypeDefinition): Result<TypeDefinition, PatchError>
  {
    var t1 :- BodySubstituted(t, SendEncryptedCommand, SendCommand);
    BodySubstituted(t1, SendNonSequencedEncryptedCommand, SendNonSequencedCommand)
  }

  /** The four methods the substitution needs, looked up in the order the source looks them up. */
  predicate HasSendMethods(t: TypeDefinition)
  {
    GetMethod(t, SendEncryptedCommand).Ok? && GetMethod(t, SendCommand).Ok?
    && GetMethod(t, SendNonSequencedEncryptedCommand).Ok? && GetMethod(t, SendNonSequencedCommand).Ok?
  }

  /** The error the source throws first when some of the four methods are missing. */
  function FirstMissingSendMethod(t: TypeDefinition): PatchError
  {
    if GetMethod(t, SendEncryptedCommand).Err? then MethodNotFound(SendEncryptedCommand)
    else if GetMethod(t, SendCommand).Err? then MethodNotFound(SendCommand)
    else if GetMethod(t, SendNonSequencedEncryptedCommand).Err? then MethodNotFound(SendNonSequencedEncryptedCommand)
    else MethodNotFound(SendNonSequencedCommand)
  }

  /**
   * Substitution succeeds exactly when the four methods exist, failing on the
   * first missing one otherwise. On success each encrypted sender has its
   * plain counterpart's body, and every other method, donors included, is kept.
   */
  lemma {:induction false} EncryptionDisabledTypeEffect(t: TypeDefinition)
    ensures EncryptionDisabledType(t).Ok? <==> HasSendMethods(t)
    ensures EncryptionDisabledType(t).Err? ==> EncryptionDisabledType(t).error == FirstMissingSendMethod(t)
    ensures EncryptionDisabledType(t).Ok? ==>
      var p := EncryptionDisabledType(t).value;
      var e, s := GetMethod(t, SendEncryptedCommand).value, GetMethod(t, SendCommand).value;
      var ne, ns := GetMethod(t, SendNonSequencedEncryptedCommand).value, GetMethod(t, SendNonSequencedCommand).value;
      && p.namespace == t.namespace && p.name == t.name && p.nestedTypes == t.nestedTypes
      && SameMethodNames(t, p)
      && p.methods[e].body == t.methods[s].body
      && p.methods[ne].body == t.methods[ns].body
      && (forall j :: 0 <= j < |t.methods| && j != e && j != ne ==> p.methods[j] == t.methods[j])
  {
    var r1 := BodySubstituted(t, SendEncryptedCommand, SendCommand);
    if r1.Ok? {
      var t1 := r1.value;
      assert SameMethodNames(t, t1);
      GetMethodSameNames(t, t1, SendNonSequencedEncryptedCommand);
      GetMethodSameNames(t, t1, SendNonSequencedCommand);
    }
  }

  /** Disabling encryption a second time changes nothing. */
  lemma {:induction false} EncryptionDisabledTypeIdempotent(t: TypeDefinition)
    requires EncryptionDisabledType(t).Ok?
    ensures EncryptionDisabledType(EncryptionDisabledType(t).value) == EncryptionDisabledType(t)
  {
    var p := EncryptionDisabledType(t).value;
    EncryptionDisabledTypeEffect(t);
    GetMethodSameNames(t, p, SendEncryptedCommand);
    GetMethodSameNames(t, p, SendCommand);
    GetMethodSameNames(t, p, SendNonSequencedEncryptedCommand);
    GetMethodSameNames(t, p, SendNonSequencedCommand);
    EncryptionDisabledTypeEffect(p);
    var q := EncryptionDisabledType(p).value;
    assert q.methods == p.methods;
  }
}
