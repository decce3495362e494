# Faeria Patcher, modelled in Dafny

Faeria Patcher rewrites the game client's `Assembly-CSharp.dll` so that it talks
to a different server. It loads the assembly's module graph (modules, top-level
types, nested types, methods, instruction lists) and runs four in-memory stages:

1. `ReplaceGameServerIp`: in `Abrakam.WorldNetworkManager`, the string literal
   stored into static field `DEFAULT_SERVER_IP` by the static initializer
   (`.cctor`) becomes the server address.
2. `ReplaceStatusCheckAddress`: in `Abrakam.ApplicationManager`, the literals of
   `GAME_SERVERS_IPS_JSON_URL` and `SERVER_STATUS_JSON_URL` become
   `http://<ip>:8000/gameserver_ips.json` and `http://<ip>:8000/server_status.json`.
3. `ReplaceLoginServerIp`: in every method that has a body, in every type nested
   directly in `Abrakam.AuthenticationManager`, every operand whose text is
   `https://api.abrakam.com/v20170728/api/faeria/token/` becomes
   `http://<ip>:8001/v20170728/api/faeria/token/`, except in a body's last
   instruction.
4. `DisableTrafficEncription`: in `Abrakam.NetworkManager`,
   `SendEncryptedCommand` gets the body of `SendCommand`, and
   `SendNonSequencedEncryptedCommand` the body of `SendNonSequencedCommand`.

Then it writes the assembly once. A lookup that finds nothing throws, so the
write never happens. The assembly is always read from the `.original` backup,
not from the target file.

The model has these modules:

- `Cil` (`cil.dfy`): the graph as datatypes. An `Instruction` has an `OpCode`
  (`Ldstr`, `Stsfld` or `Other`) and an `Operand` (null, a string literal, a
  field reference with its name, or any other operand, known by its
  `ToString()` text). A `MethodDefinition` has an optional `MethodBody` (its
  instructions, locals and exception handlers). A `TypeDefinition` has a
  namespace, a name, methods and nested types. A `ModuleDefinition` holds the
  top-level types.
- `Targets` and `Endpoints`: the fixed search keys, and the three address
  formatters together with their inverse `HostOf`.
- `InstructionPatches`: the two matchers, and the rewrite each one drives,
  stated per index on a sequence. It also holds the two index loops, written as
  methods that mutate an `array<Instruction>` in place.
- `Resolution`: `GetType` and `GetMethod`. Both are first-match searches that
  return `Err` where the source throws. A type is returned as its location
  (module index and type index), and that location is the handle used to write
  the patched type back.
- `TypePatches`: the patches at the level of one type, and the loops over a
  type's methods and nested types.
- `Patcher`: each stage as a function on the module sequence; the class
  `Assembly`, whose methods are the four stages that mutate its `modules`
  field; and `PatchAssembly`, which models lines 50-55 of `Main`.

Four points where the code does less, or something other, than its names suggest:

- The login-address match does not check the opcode. Any non-null operand whose
  `ToString()` equals the original address is rewritten, not only an `ldstr`
  operand.
- The static-field patch matches a `stsfld` operand by the field name it
  carries and never looks the field up in the type. A field name that no
  `.cctor` stores into is not an error: nothing is rewritten.
- The static-field patch visits every method named `.cctor` among the type's
  own methods. A `.cctor` without a body makes the source dereference a null
  `Body`. That is modelled as the error `NullBody(".cctor")`.
- Body substitution in the source makes the recipient share the donor's body
  object. The model copies the body value.

## Model

| member | source | states |
|---|---|---|
| `Endpoints.FormatServersIpsAddress` | FaeriaPatcher/Program.cs:60-63 | the game-servers list URL `http://<ip>:8000/gameserver_ips.json`; its inverse and injectivity are `FormattersRoundTrip` and `FormattersInjective` |
| `Endpoints.FormatServerStatusAddress` | FaeriaPatcher/Program.cs:65-68 | the server-status URL `http://<ip>:8000/server_status.json`; see `FormattersRoundTrip` and `FormattersInjective` |
| `Endpoints.FormatTokenEndpointAddress` | FaeriaPatcher/Program.cs:70-73 | the login token endpoint `http://<ip>:8001/v20170728/api/faeria/token/`; see `FormattersRoundTrip`, `FormattersInjective` and `TokenEndpointIsNotOriginal` |
| `Endpoints.HostOf` | FaeriaPatcher/Program.cs:60-73 | when it returns a host `h`, the url is exactly `http://` + `h` + the given suffix |
| `Endpoints.HostOfRoundTrip` | FaeriaPatcher/Program.cs:60-73 | stripping the scheme and the suffix from `http://<h><suffix>` gives back `h` |
| `Endpoints.FormattersRoundTrip` | FaeriaPatcher/Program.cs:60-73 | each of the three formatters is undone by `HostOf` with its own suffix, giving back the server address |
| `Endpoints.FormattersInjective` | FaeriaPatcher/Program.cs:60-73 | each formatter maps different server addresses to different URLs |
| `Endpoints.TokenEndpointIsNotOriginal` | FaeriaPatcher/Program.cs:70-73 | the replacement token endpoint never equals the original login address of line 10, for any server address |
| `InstructionPatches.IsStaticFieldInitializer` | FaeriaPatcher/Program.cs:133-137 | the match of line 137: a non-last `ldstr` whose next instruction is a `stsfld` of a field with the given name |
| `InstructionPatches.StaticFieldPatched` | FaeriaPatcher/Program.cs:133-140 | the effect of the index loop, defined per index; its properties are the `StaticField*` lemmas below and `ReplaceStaticStringFieldInPlace` is proved equal to it |
| `InstructionPatches.StaticFieldPatchedChangesOnlyMatches` | FaeriaPatcher/Program.cs:133-140 | the static-field rewrite keeps the length and every opcode; it gives every `ldstr` followed by `stsfld <field>` the new literal (all of them, not only the first); every other instruction is unchanged |
| `InstructionPatches.StaticFieldPatchedChangesOnlyLoads` | FaeriaPatcher/Program.cs:137-139 | an instruction that changes is an `ldstr` that is not last and is followed by a `stsfld` |
| `InstructionPatches.StaticFieldMatchStable` | FaeriaPatcher/Program.cs:137 | after a rewrite of any field, the initializer sites of every field are exactly the sites they were before |
| `InstructionPatches.StaticFieldPatchedIdempotent` | FaeriaPatcher/Program.cs:133-141 | rewriting the same field with the same literal twice gives the same list as rewriting it once |
| `InstructionPatches.StaticFieldPatchesCommute` | FaeriaPatcher/Program.cs:86-87 | rewrites of two different fields commute, so the order of the two status patches does not matter |
| `Cil.OperandText` | FaeriaPatcher/Program.cs:116 | `Operand.ToString()` of a non-null operand: a string literal gives its value, a field reference its full name, any other operand its recorded text; the login match compares it with the original address |
| `InstructionPatches.IsLoginAddressOperand` | FaeriaPatcher/Program.cs:112-116 | the match of line 116: a non-last instruction with a non-null operand whose text is the original login address |
| `InstructionPatches.LoginAddressPatched` | FaeriaPatcher/Program.cs:112-119 | the effect of the login index loop, defined per index; its properties are the `LoginAddress*` lemmas below and `ReplaceLoginAddressInPlace` is proved equal to it |
| `InstructionPatches.LoginAddressPatchedChangesOnlyMatches` | FaeriaPatcher/Program.cs:112-119 | the login rewrite keeps the length and every opcode; it gives every non-last instruction whose operand text is the original address the token endpoint, whatever its opcode; every other instruction is unchanged |
| `InstructionPatches.LoginAddressPatchedLeavesNoMatch` | FaeriaPatcher/Program.cs:112-119 | after the login rewrite, no examined instruction still holds the original address |
| `InstructionPatches.LoginAddressPatchedIdempotent` | FaeriaPatcher/Program.cs:112-119 | running the login rewrite a second time changes nothing |
| `InstructionPatches.LastInstructionUntouched` | FaeriaPatcher/Program.cs:133 | neither rewrite changes the last instruction (the `Count - 1` bound, here and at line 112); the login loop never reads it, and the static-field loop reads it only as the `Next` of index `Count - 2`; a body of zero or one instruction is unchanged |
| `InstructionPatches.ReplaceStaticStringFieldInPlace` | FaeriaPatcher/Program.cs:133-141 | the in-place index loop leaves the array equal to the static-field rewrite of its old contents |
| `InstructionPatches.ReplaceLoginAddressInPlace` | FaeriaPatcher/Program.cs:112-120 | the in-place index loop leaves the array equal to the login rewrite of its old contents |
| `Resolution.FindTypeIn` | FaeriaPatcher/Program.cs:149-155 | gives the first index at or after `from` whose type has the namespace and name, or none when no type from there on has them |
| `Resolution.GetTypeFrom` | FaeriaPatcher/Program.cs:147-158 | gives the first matching location from module `m` on, in module-then-type order; otherwise fails with `TypeNotFound` and no location from there matches |
| `Resolution.GetType` | FaeriaPatcher/Program.cs:145-159 | success is a top-level type with that namespace and name that no earlier location matches; failure is `TypeNotFound(ns, name)` with no matching top-level type anywhere (nested types are not searched) |
| `Resolution.FindMethodIn` | FaeriaPatcher/Program.cs:163-169 | gives the first index at or after `from` whose method has the name, or none when there is none |
| `Resolution.GetMethod` | FaeriaPatcher/Program.cs:161-172 | success is the first method with that name; failure is `MethodNotFound(name)` with no method of that name |
| `Resolution.GetTypeSameNames` | FaeriaPatcher/Program.cs:151 | `GetType` depends only on namespaces and names: two assemblies that agree on them give the same result |
| `Resolution.GetMethodSameNames` | FaeriaPatcher/Program.cs:165 | `GetMethod` depends only on method names |
| `Resolution.UpdateType` | FaeriaPatcher/Program.cs:78 | the write-back of a patched type at its location, standing for the source mutating the type through the reference `GetType` returned (lines 78, 86-87, 96-97, 106-121); see `UpdateTypeAt`, `UpdateTypeKeepsLayout`, `UpdateTypeKeepsLookups`, `UpdateTypeOverwrites` and `UpdateTypesCommute` |
| `Resolution.UpdateTypeAt` | FaeriaPatcher/Program.cs:78 | after a write-back the location still holds a type, and it is the one written |
| `Resolution.UpdateTypeKeepsLookups` | FaeriaPatcher/Program.cs:145-159 | writing a patched type back at its location, with its names kept, leaves every `GetType` result as it was (the layout facts are `UpdateTypeKeepsLayout`) |
| `Resolution.UpdateTypeOverwrites` | FaeriaPatcher/Program.cs:86-87 | a second write-back to the same type replaces the first, so the second patch of a type reads the result of the first |
| `TypePatches.HasBodilessStaticConstructor` | FaeriaPatcher/Program.cs:131-133 | some method named `.cctor` has no body, so the loop bound at line 133 dereferences a null `Body`; `StaticFieldPatchedTypeEffect` shows this is exactly when the patch fails |
| `TypePatches.StaticFieldPatchedMethod` | FaeriaPatcher/Program.cs:131-141 | one iteration of the method loop: a `.cctor` with a body gets the static-field rewrite of its instruction list, any other method is kept; see `StaticFieldPatchedTypeEffect` |
| `TypePatches.StaticFieldPatchedType` | FaeriaPatcher/Program.cs:127-143 | the type after `ReplaceStaticStringField`: every `.cctor` patched, or `NullBody(".cctor")` when one has no body; `ReplaceStaticStringField` is proved equal to it, and `StaticFieldPatchedTypeEffect` and `StaticFieldPatchedTypeIdempotent` describe it |
| `TypePatches.StaticFieldPatchedTypeEffect` | FaeriaPatcher/Program.cs:127-143 | the type-level static-field patch fails with `NullBody` exactly when a `.cctor` has no body; on success, every `.cctor` instruction list is rewritten with its locals and handlers kept, methods not named `.cctor` are untouched, and so are the type's names and nested types |
| `TypePatches.StaticFieldPatchedTypeIdempotent` | FaeriaPatcher/Program.cs:127-143 | applying `ReplaceStaticStringField` twice with the same field and value gives the same type as applying it once |
| `TypePatches.ReplaceStaticStringField` | FaeriaPatcher/Program.cs:127-143 | the loop over the type's methods, patching each `.cctor` body in place, gives exactly the type-level static-field patch or its `NullBody` failure |
| `TypePatches.LoginAddressPatchedMethod` | FaeriaPatcher/Program.cs:108-120 | one method of a nested type: skipped when it has no body (line 110), otherwise its instruction list gets the login rewrite; see `LoginAddressPatchedTypeEffect` |
| `TypePatches.LoginAddressPatchedNestedType` | FaeriaPatcher/Program.cs:108-121 | every method of one nested type patched as `LoginAddressPatchedMethod` says; see `LoginAddressPatchedTypeEffect` |
| `TypePatches.LoginAddressPatchedType` | FaeriaPatcher/Program.cs:106-122 | the `AuthenticationManager` type after the login patch: each directly nested type patched, nothing else changed; `ReplaceLoginServerIpIn` is proved equal to it, and `LoginAddressPatchedTypeEffect` and `LoginAddressPatchedTypeIdempotent` describe it |
| `TypePatches.LoginAddressPatchedTypeEffect` | FaeriaPatcher/Program.cs:106-122 | only the methods of directly nested types change; a method without a body is skipped; a method with one gets the login rewrite, with locals and handlers kept; the type's own methods, both levels of names, and deeper nested types are unchanged |
| `TypePatches.LoginAddressPatchedTypeIdempotent` | FaeriaPatcher/Program.cs:106-122 | the type-level login patch is idempotent |
| `TypePatches.ReplaceLoginServerIpIn` | FaeriaPatcher/Program.cs:106-122 | the nested loops over nested types and their methods give exactly the type-level login patch |
| `TypePatches.BodySubstituted` | FaeriaPatcher/Program.cs:96-97 | one assignment `recipient.Body = donor.Body`, with the recipient looked up before the donor; see `EncryptionDisabledTypeEffect` |
| `TypePatches.EncryptionDisabledType` | FaeriaPatcher/Program.cs:94-97 | both body substitutions of `DisableTrafficEncription` on the loaded type, in source order; see `EncryptionDisabledTypeEffect` and `EncryptionDisabledTypeIdempotent` |
| `TypePatches.EncryptionDisabledTypeEffect` | FaeriaPatcher/Program.cs:96-97 | substitution succeeds exactly when all four send methods exist; otherwise it fails on the first missing one, in the source's lookup order; on success each encrypted sender has its plain counterpart's body, and every other method, donors included, is unchanged |
| `TypePatches.EncryptionDisabledTypeIdempotent` | FaeriaPatcher/Program.cs:96-97 | disabling encryption a second time changes nothing |
| `Patcher.GameServerIpPatched` | FaeriaPatcher/Program.cs:75-81 | stage 1 on the module sequence: look up `Abrakam.WorldNetworkManager`, patch `DEFAULT_SERVER_IP`, write the type back; `Assembly.ReplaceGameServerIp` is proved to agree with it |
| `Patcher.StatusAddressesPatchedType` | FaeriaPatcher/Program.cs:86-87 | the two static-field patches of stage 2 on one type, the second on the result of the first; see `StatusAddressesPatchedTypeEffect` |
| `Patcher.StatusCheckAddressPatched` | FaeriaPatcher/Program.cs:83-90 | stage 2 on the module sequence: look up `Abrakam.ApplicationManager`, patch both status URLs, write the type back; `Assembly.ReplaceStatusCheckAddress` is proved to agree with it |
| `Patcher.LoginServerIpPatched` | FaeriaPatcher/Program.cs:102-125 | stage 3 on the module sequence: look up `Abrakam.AuthenticationManager`, patch its nested types, write it back; `Assembly.ReplaceLoginServerIp` is proved to agree with it |
| `Patcher.TrafficEncryptionDisabled` | FaeriaPatcher/Program.cs:92-100 | stage 4 on the module sequence: look up `Abrakam.NetworkManager`, substitute both bodies, write it back; `Assembly.DisableTrafficEncription` is proved to agree with it |
| `Patcher.Patched` | FaeriaPatcher/Program.cs:50-55 | the four stages in `Main`'s order, stopping at the first failure; `PatchAssembly` is proved equal to it and the `Patched*` lemmas below describe it |
| `Patcher.StatusAddressesPatchedTypeEffect` | FaeriaPatcher/Program.cs:86-87 | the two status patches in sequence fail exactly on a bodiless `.cctor`, with `NullBody(".cctor")`; on success, each `.cctor` instruction list is the two rewrites applied in order, its locals and handlers are kept, and every other method, the names and the nested types are kept |
| `Patcher.Assembly.Read` | FaeriaPatcher/Program.cs:50 | the loaded assembly is the backup image |
| `Patcher.Assembly.ReplaceGameServerIp` | FaeriaPatcher/Program.cs:75-81 | the outcome and the new state are those of the stage's specification; a failure returns its error |
| `Patcher.Assembly.ReplaceStatusCheckAddress` | FaeriaPatcher/Program.cs:83-90 | the outcome and the new state are those of the stage's specification; a failure returns its error |
| `Patcher.Assembly.ReplaceLoginServerIp` | FaeriaPatcher/Program.cs:102-125 | the outcome and the new state are those of the stage's specification; a failure returns its error |
| `Patcher.Assembly.DisableTrafficEncription` | FaeriaPatcher/Program.cs:92-100 | the outcome and the new state are those of the stage's specification, including the failure of the second lookup pair after the first substitution |
| `Patcher.PatchAssembly` | FaeriaPatcher/Program.cs:50-55 | what is written equals the four stages run in sequence on the backup image; on a failure nothing is written |
| `Patcher.IndependentlyPatched` | FaeriaPatcher/Program.cs:50-55 | a reference in which every stage patches its type as loaded and the four results are written back; see `PatchedStagesIndependent` |
| `Patcher.PatchedStagesIndependent` | FaeriaPatcher/Program.cs:50-55 | running the stages in sequence equals running each one on its type as loaded and writing the four results back |
| `Patcher.PatchedSucceedsIff` | FaeriaPatcher/Program.cs:50-55 | the patch is written exactly when the four types resolve, the two patched types have no bodiless `.cctor`, and the four send methods resolve; any failed resolution means no write |
| `Patcher.PatchedContents` | FaeriaPatcher/Program.cs:50-55 | after a successful patch all four types resolved; the written assembly keeps every name and location; the four target types are the stage results on the loaded types; every other top-level type is as loaded |
| `Patcher.PatchedSendBodies` | FaeriaPatcher/Program.cs:94-97 | in the written assembly, each encrypted sender has the body its plain counterpart had when loaded, the plain senders are unchanged, and all four still resolve to the same methods |
| `Patcher.PatchedInReverse` | FaeriaPatcher/Program.cs:50-55 | the four stages in the opposite order, as a second reference for `Main`'s order; see `StageOrderIrrelevant` |
| `Patcher.PatchedInReverseSucceedsIff` | FaeriaPatcher/Program.cs:50-55 | in the opposite order the stages succeed exactly on the assemblies on which `Main`'s order succeeds |
| `Patcher.PatchedInReverseAgrees` | FaeriaPatcher/Program.cs:50-55 | when `Main`'s order succeeds, the opposite order writes the same assembly |
| `Patcher.StageOrderIrrelevant` | FaeriaPatcher/Program.cs:50-55 | the stage order does not change what is written: both orders succeed on the same assemblies and then write the same one; only which failure is reported first can differ |
| `Resolution.UpdateTypesCommute` | FaeriaPatcher/Program.cs:50-55 | write-backs of two types at different locations can be made in either order |

## Left out

- Console output, `Console.Title`, the usage message and the error messages. They are user interface only.
- The argument-count check, the install-directory and target-file checks, `Path.Combine`, `SetCurrentDirectory`, and the one-time `File.Copy` backup. They are file-system plumbing. The model starts from the decoded backup image, which `PatchAssembly` takes as a parameter.
- Decoding and encoding the assembly (`ReadAssembly`, `Write`), metadata tables, and Cecil's linked `Instruction.Next`. These are foreign library code. The instruction after index `i` is the one at index `i + 1`.
- `Operand.ToString()` on operands that are not strings. The model gives each such operand the text its `ToString()` would return.
- The `(FieldDefinition)` cast on a `stsfld` operand. In the source a null operand passes the cast and then makes the `.Name` access of line 137 throw; the cast itself throws only for an operand that is not a field definition, including a field reference that is not one. The model matches any field reference by its name and treats every other operand as no match, so none of these exceptions is modelled.
- Aliasing. In the source, the recipient's body becomes the same object as the donor's, and types are mutated through references. The model copies values and writes each patched type back at its location. A later change to a shared body's object is therefore not visible through the other method.
- Patcher.Assembly.ReplaceGameServerIp: after a failure its contract says nothing about `modules`, because the failed run discards the assembly unwritten.
- Patcher.Assembly.ReplaceStatusCheckAddress: after a failure its contract says nothing about `modules`, for the same reason.
- Patcher.Assembly.ReplaceLoginServerIp: after a failure its contract says nothing about `modules`, for the same reason.
- Patcher.Assembly.DisableTrafficEncription: after a failure its contract says nothing about `modules`. In the source the first substitution may already have happened when the second lookup pair fails.
- Fields as definitions. A type's fields are not modelled, because the patcher only compares the name carried by the `stsfld` operand.
- Exit codes. The source returns normally on every user-input error.
