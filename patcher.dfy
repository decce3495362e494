/**
 * The patch sequence of `Main`: four stages run one after the other on the
 * one in-memory assembly, then the single write. The assembly is read from
 * the `.original` backup, never from the target file, and a stage that
 * throws ends the run before the write.
 */
module Patcher {
  import opened Wrappers
  import opened Cil
  import opened Resolution
  import opened TypePatches
  import opened Targets
  import opened Endpoints

  // ---- The four stages, on assembly values ----

  /** `ReplaceGameServerIp`: `DEFAULT_SERVER_IP` of `Abrakam.WorldNetworkManager` becomes the server address. */
  function GameServerIpPatched(modules: seq<ModuleDefinition>, serverIp: string): Result<seq<ModuleDefinition>, PatchError>
  {
    var loc :- GetType(modules, GameNamespace, WorldNetworkManager);
    var t :- StaticFieldPatchedType(TypeAt(modules, loc), GameServerIpField, serverIp);
    Ok(UpdateType(modules, loc, t))
  }

  /** The two static-field patches of `ReplaceStatusCheckAddress`, the second on the result of the first. */
  function StatusAddressesPatchedType(t: TypeDefinition, serverIp: string): Result<TypeDefinition, PatchError>
  {
    var t1 :- StaticFieldPatchedType(t, ServersIpField, FormatServersIpsAddress(serverIp));
    StaticFieldPatchedType(t1, ServersStatusField, FormatServerStatusAddress(serverIp))
  }

  /** `ReplaceStatusCheckAddress`: the two JSON URLs of `Abrakam.ApplicationManager`. */
  function StatusCheckAddressPatched(modules: seq<ModuleDefinition>, serverIp: string): Result<seq<ModuleDefinition>, PatchError>
  {
    var loc :- GetType(modules, GameNamespace, ApplicationManager);
    var t :- StatusAddressesPatchedType(TypeAt(modules, loc), serverIp);
    Ok(UpdateType(modules, loc, t))
  }

  /** `ReplaceLoginServerIp`: the login endpoint inside the nested types of `Abrakam.AuthenticationManager`. */
  function LoginServerIpPatched(modules: seq<ModuleDefinition>, serverIp: string): Result<seq<ModuleDefinition>, PatchError>
  {
    var loc :- GetType(modules, GameNamespace, AuthenticationManager);
    Ok(UpdateType(modules, loc, LoginAddressPatchedType(TypeAt(modules, loc), serverIp)))
  }

  /** `DisableTrafficEncription`: the body substitutions in `Abrakam.NetworkManager`. */
  function TrafficEncryptionDisabled(modules: seq<ModuleDefinition>): Result<seq<ModuleDefinition>, PatchError>
  {
    var loc :- GetType(modules, GameNamespace, NetworkManager);
    var t :- EncryptionDisabledType(TypeAt(modules, loc));
    Ok(UpdateType(modules, loc, t))
  }

  /** What `Main` writes to the target: the four stages in order, or the first failure. */
  function Patched(original: seq<ModuleDefinition>, serverIp: string): Result<seq<ModuleDefinition>, PatchError>
  {
    var m1 :- GameServerIpPatched(original, serverIp);
    var m2 :- StatusCheckAddressPatched(m1, serverIp);
    var m3 :- LoginServerIpPatched(m2, serverIp);
    TrafficEncryptionDisabled(m3)
  }

  /** A stage's outcome `r` and the assembly state `modules` agree with its specification `expected`. */
  predicate Agrees(r: Result<(), PatchError>, modules: seq<ModuleDefinition>, expected: Result<seq<ModuleDefinition>, PatchError>)
  {
    match expected
    case Ok(m) => r == Ok(()) && modules == m
    case Err(e) => r == Err(e)
  }

  // ---- The assembly object that `Main` mutates ----

  /**
   * The loaded assembly. Each stage looks its target up, patches it and
   * writes it back; after a stage fails its state is not specified (it is
   * discarded without being written).
   */
  class Assembly {
    var modules: seq<ModuleDefinition>

    /** `AssemblyDefinition.ReadAssembly(originalPath)`, on an already decoded image. */
    constructor Read(image: seq<ModuleDefinition>)
      ensures modules == image
    {
      modules := image;
    }

    method ReplaceGameServerIp(serverIp: string) returns (r: Result<(), PatchError>)
      modifies this
      ensures Agrees(r, modules, GameServerIpPatched(old(modules), serverIp))
    {
      var loc :- GetType(modules, GameNamespace, WorldNetworkManager);
      var t :- ReplaceStaticStringField(TypeAt(modules, loc), GameServerIpField, serverIp);
      modules := UpdateType(modules, loc, t);
      r := Ok(());
    }

    method ReplaceStatusCheckAddress(serverIp: string) returns (r: Result<(), PatchError>)
      modifies this
      ensures Agrees(r, modules, StatusCheckAddressPatched(old(modules), serverIp))
    {
      var loc :- GetType(modules, GameNamespace, ApplicationManager);
      ghost var loaded := modules;
      var t :- ReplaceStaticStringField(TypeAt(modules, loc), ServersIpField, FormatServersIpsAddress(serverIp));
      modules := UpdateType(modules, loc, t);
      UpdateTypeAt(loaded, loc, t);
      var t2 :- ReplaceStaticStringField(TypeAt(modules, loc), ServersStatusField, FormatServerStatusAddress(serverIp));
      UpdateTypeOverwrites(loaded, loc, t, t2);
      modules := UpdateType(modules, loc, t2);
      r := Ok(());
    }

    method ReplaceLoginServerIp(serverIp: string) returns (r: Result<(), PatchError>)
      modifies this
      ensures Agrees(r, modules, LoginServerIpPatched(old(modules), serverIp))
    {
      var loc :- GetType(modules, GameNamespace, AuthenticationManager);
      var t := ReplaceLoginServerIpIn(TypeAt(modules, loc), serverIp);
      modules := UpdateType(modules, loc, t);
      r := Ok(());
    }

    method DisableTrafficEncription() returns (r: Result<(), PatchError>)
      modifies this
      ensures Agrees(r, modules, TrafficEncryptionDisabled(old(modules)))
    {
      var loc :- GetType(modules, GameNamespace, NetworkManager);
      var t := TypeAt(modules, loc);
      ghost var loaded := modules;
      var recipient :- GetMethod(t, SendEncryptedCommand);
      var donor :- GetMethod(t, SendCommand);
      var t1 := t.(methods := t.methods[recipient := t.methods[recipient].(body := t.methods[donor].body)]);
      modules := UpdateType(modules, loc, t1);
      UpdateTypeAt(loaded, loc, t1);
      t := TypeAt(modules, loc);
      recipient :- GetMethod(t, SendNonSequencedEncryptedCommand);
      donor :- GetMethod(t, SendNonSequencedCommand);
      var t2 := t.(methods := t.methods[recipient := t.methods[recipient].(body := t.methods[donor].body)]);
      UpdateTypeOverwrites(loaded, loc, t1, t2);
      modules := UpdateType(modules, loc, t2);
      r := Ok(());
    }
  }

  /**
   * Lines 50-55 of `Main`: read the backup image, run the four stages, and
   * return what is written to the target. An `Err` means the run threw before
   * the write, so the target is left as it was.
   */
  method PatchAssembly(original: seq<ModuleDefinition>, serverIp: string) returns (written: Result<seq<ModuleDefinition>, PatchError>)
    ensures written == Patched(original, serverIp)
  {
    var assembly := new Assembly.Read(original);
    var r := assembly.ReplaceGameServerIp(serverIp);
    if r.Err? { return Err(r.error); }
    r := assembly.ReplaceStatusCheckAddress(serverIp);
    if r.Err? { return Err(r.error); }
    r := assembly.ReplaceLoginServerIp(serverIp);
    if r.Err? { return Err(r.error); }
    r := assembly.DisableTrafficEncription();
    if r.Err? { return Err(r.error); }
    written := Ok(assembly.modules);
  }

  // ---- The patch sequence as a whole ----

  /**
   * Both status URLs patched, in order: the `.cctor` instruction lists become
   * the two rewrites in sequence, everything else as `StaticFieldPatchedType`
   * keeps it; it fails exactly on a `.cctor` without a body.
   */
  lemma {:induction false} StatusAddressesPatchedTypeEffect(t: TypeDefinition, serverIp: string)
    ensures StatusAddressesPatchedType(t, serverIp).Ok? <==> !HasBodilessStaticConstructor(t)
    ensures StatusAddressesPatchedType(t, serverIp).Err? ==>
      StatusAddressesPatchedType(t, serverIp).error == NullBody(StaticConstructorName)
    ensures StatusAddressesPatchedType(t, serverIp).Ok? ==>
      var p := StatusAddressesPatchedType(t, serverIp).value;
      && p.namespace == t.namespace && p.name == t.name && p.nestedTypes == t.nestedTypes
      && SameMethodNames(t, p)
      && (forall i :: 0 <= i < |t.methods| && !IsStaticConstructor(t.methods[i]) ==> p.methods[i] == t.methods[i])
      && (forall i :: 0 <= i < |t.methods| && IsStaticConstructor(t.methods[i]) ==>
            t.methods[i].body.Some? && p.methods[i].body.Some?
            && p.methods[i].body.value.instructions == InstructionPatches.StaticFieldPatched(
                 InstructionPatches.StaticFieldPatched(t.methods[i].body.value.instructions, ServersIpField, FormatServersIpsAddress(serverIp)),
                 ServersStatusField, FormatServerStatusAddress(serverIp))
            && p.methods[i].body.value.variables == t.methods[i].body.value.variables
            && p.methods[i].body.value.handlers == t.methods[i].body.value.handlers)
  {
    var v1, v2 := FormatServersIpsAddress(serverIp), FormatServerStatusAddress(serverIp);
    StaticFieldPatchedTypeEffect(t, ServersIpField, v1);
    var r1 := StaticFieldPatchedType(t, ServersIpField, v1);
    if r1.Ok? {
      var t1 := r1.value;
      StaticFieldPatchedTypeEffect(t1, ServersStatusField, v2);
      assert !HasBodilessStaticConstructor(t1) by {
        forall i | 0 <= i < |t1.methods| && IsStaticConstructor(t1.methods[i])
          ensures t1.methods[i].body.Some?
        {
          assert IsStaticConstructor(t.methods[i]);
        }
      }
      forall i | 0 <= i < |t.methods| && IsStaticConstructor(t.methods[i])
        ensures IsStaticConstructor(t1.methods[i])
      {
      }
    }
  }

  /**
   * A reference for `Patched` in which every stage works on its type as it was
   * loaded. The four stages touch four different top-level types and keep all
   * names, so their order decides only which failure is reported first.
   */
  function IndependentlyPatched(original: seq<ModuleDefinition>, serverIp: string): Result<seq<ModuleDefinition>, PatchError>
  {
    var lw :- GetType(original, GameNamespace, WorldNetworkManager);
    var tw :- StaticFieldPatchedType(TypeAt(original, lw), GameServerIpField, serverIp);
    var la :- GetType(original, GameNamespace, ApplicationManager);
    var ta :- StatusAddressesPatchedType(TypeAt(original, la), serverIp);
    var ll :- GetType(original, GameNamespace, AuthenticationManager);
    var tl := LoginAddressPatchedType(TypeAt(original, ll), serverIp);
    var ln :- GetType(original, GameNamespace, NetworkManager);
    var tn :- EncryptionDisabledType(TypeAt(original, ln));
    Ok(UpdateType(UpdateType(UpdateType(UpdateType(original, lw, tw), la, ta), ll, tl), ln, tn))
  }

  /** Running the stages in sequence is the same as running each on the loaded assembly. */
  lemma {:induction false} PatchedStagesIndependent(original: seq<ModuleDefinition>, serverIp: string)
    ensures Patched(original, serverIp) == IndependentlyPatched(original, serverIp)
  {
    var rw := GetType(original, GameNamespace, WorldNetworkManager);
    if rw.Err? { return; }
    var lw := rw.value;
    var rtw := StaticFieldPatchedType(TypeAt(original, lw), GameServerIpField, serverIp);
    if rtw.Err? { return; }
    var tw := rtw.value;
    StaticFieldPatchedTypeEffect(TypeAt(original, lw), GameServerIpField, serverIp);
    var m1 := UpdateType(original, lw, tw);
    UpdateTypeKeepsLayout(original, lw, tw);
    UpdateTypeKeepsLookups(original, lw, tw);
    assert GameServerIpPatched(original, serverIp) == Ok(m1);

    var ra := GetType(original, GameNamespace, ApplicationManager);
    assert GetType(m1, GameNamespace, ApplicationManager) == ra;
    if ra.Err? { return; }
    var la := ra.value;
    assert la != lw;
    assert TypeAt(m1, la) == TypeAt(original, la);
    var rta := StatusAddressesPatchedType(TypeAt(original, la), serverIp);
    if rta.Err? { return; }
    var ta := rta.value;
    StatusAddressesPatchedTypeEffect(TypeAt(original, la), serverIp);
    var m2 := UpdateType(m1, la, ta);
    UpdateTypeKeepsLayout(m1, la, ta);
    UpdateTypeKeepsLookups(m1, la, ta);
    assert StatusCheckAddressPatched(m1, serverIp) == Ok(m2);

    var rl := GetType(original, GameNamespace, AuthenticationManager);
    assert GetType(m2, GameNamespace, AuthenticationManager) == rl;
    if rl.Err? { return; }
    var ll := rl.value;
    assert ll != lw && ll != la;
    assert TypeAt(m2, ll) == TypeAt(original, ll);
    var tl := LoginAddressPatchedType(TypeAt(original, ll), serverIp);
    LoginAddressPatchedTypeEffect(TypeAt(original, ll), serverIp);
    var m3 := UpdateType(m2, ll, tl);
    UpdateTypeKeepsLayout(m2, ll, tl);
    UpdateTypeKeepsLookups(m2, ll, tl);
    assert LoginServerIpPatched(m2, serverIp) == Ok(m3);

    var rn := GetType(original, GameNamespace, NetworkManager);
    assert GetType(m3, GameNamespace, NetworkManager) == rn;
    if rn.Err? { return; }
    var ln := rn.value;
    assert ln != lw && ln != la && ln != ll;
    assert TypeAt(m3, ln) == TypeAt(original, ln);
  }

  /** What the loaded assembly must contain for the patch to be written. */
  predicate Patchable(original: seq<ModuleDefinition>)
  {
    && GetType(original, GameNamespace, WorldNetworkManager).Ok?
    && !HasBodilessStaticConstructor(TypeAt(original, GetType(original, GameNamespace, WorldNetworkManager).value))
    && GetType(original, GameNamespace, ApplicationManager).Ok?
    && !HasBodilessStaticConstructor(TypeAt(original, GetType(original, GameNamespace, ApplicationManager).value))
    && GetType(original, GameNamespace, AuthenticationManager).Ok?
    && GetType(original, GameNamespace, NetworkManager).Ok?
    && HasSendMethods(TypeAt(original, GetType(original, GameNamespace, NetworkManager).value))
  }

  /**
   * The patch is written exactly when all four types, the four send methods
   * and every needed `.cctor` body resolve; any failed resolution means no write.
   */
  lemma PatchedSucceedsIff(original: seq<ModuleDefinition>, serverIp: string)
    ensures Patched(original, serverIp).Ok? <==> Patchable(original)
  {
    PatchedStagesIndependent(original, serverIp);
    var rw := GetType(original, GameNamespace, WorldNetworkManager);
    if rw.Ok? {
      StaticFieldPatchedTypeEffect(TypeAt(original, rw.value), GameServerIpField, serverIp);
    }
    var ra := GetType(original, GameNamespace, ApplicationManager);
    if ra.Ok? {
      StatusAddressesPatchedTypeEffect(TypeAt(original, ra.value), serverIp);
    }
    var rn := GetType(original, GameNamespace, NetworkManager);
    if rn.Ok? {
      EncryptionDisabledTypeEffect(TypeAt(original, rn.value));
    }
  }

  /** Every stage's type-level patch keeps the type's namespace and name. */
  lemma StagePatchesKeepNames(t: TypeDefinition, serverIp: string)
    ensures StaticFieldPatchedType(t, GameServerIpField, serverIp).Ok? ==>
      HasName(StaticFieldPatchedType(t, GameServerIpField, serverIp).value, t.namespace, t.name)
    ensures StatusAddressesPatchedType(t, serverIp).Ok? ==>
      HasName(StatusAddressesPatchedType(t, serverIp).value, t.namespace, t.name)
    ensures HasName(LoginAddressPatchedType(t, serverIp), t.namespace, t.name)
    ensures EncryptionDisabledType(t).Ok? ==> HasName(EncryptionDisabledType(t).value, t.namespace, t.name)
  {
    StaticFieldPatchedTypeEffect(t, GameServerIpField, serverIp);
    StatusAddressesPatchedTypeEffect(t, serverIp);
    EncryptionDisabledTypeEffect(t);
  }

  /**
   * The written assembly has the loaded one's layout and names; the four target
   * types are the stages' results on the loaded types and every other
   * top-level type is as loaded.
   */
  lemma {:induction false} PatchedContents(original: seq<ModuleDefinition>, serverIp: string)
    requires Patched(original, serverIp).Ok?
    ensures && GetType(original, GameNamespace, WorldNetworkManager).Ok?
            && GetType(original, GameNamespace, ApplicationManager).Ok?
            && GetType(original, GameNamespace, AuthenticationManager).Ok?
            && GetType(original, GameNamespace, NetworkManager).Ok?
    ensures var written := Patched(original, serverIp).value;
      var lw := GetType(original, GameNamespace, WorldNetworkManager).value;
      var la := GetType(original, GameNamespace, ApplicationManager).value;
      var ll := GetType(original, GameNamespace, AuthenticationManager).value;
      var ln := GetType(original, GameNamespace, NetworkManager).value;
      && SameTypeNames(original, written)
      && IsLocation(written, lw) && IsLocation(written, la) && IsLocation(written, ll) && IsLocation(written, ln)
      && StaticFieldPatchedType(TypeAt(original, lw), GameServerIpField, serverIp).Ok?
      && TypeAt(written, lw) == StaticFieldPatchedType(TypeAt(original, lw), GameServerIpField, serverIp).value
      && StatusAddressesPatchedType(TypeAt(original, la), serverIp).Ok?
      && TypeAt(written, la) == StatusAddressesPatchedType(TypeAt(original, la), serverIp).value
      && TypeAt(written, ll) == LoginAddressPatchedType(TypeAt(original, ll), serverIp)
      && EncryptionDisabledType(TypeAt(original, ln)).Ok?
      && TypeAt(written, ln) == EncryptionDisabledType(TypeAt(original, ln)).value
      && (forall l :: IsLocation(original, l) && l != lw && l != la && l != ll && l != ln ==>
            IsLocation(written, l) && TypeAt(written, l) == TypeAt(original, l))
  {
    PatchedStagesIndependent(original, serverIp);
    var lw := GetType(original, GameNamespace, WorldNetworkManager).value;
    var rtw := StaticFieldPatchedType(TypeAt(original, lw), GameServerIpField, serverIp);
    assert rtw.Ok?;
    var la := GetType(original, GameNamespace, ApplicationManager).value;
    var rta := StatusAddressesPatchedType(TypeAt(original, la), serverIp);
    assert rta.Ok?;
    var ll := GetType(original, GameNamespace, AuthenticationManager).value;
    var ln := GetType(original, GameNamespace, NetworkManager).value;
    var rtn := EncryptionDisabledType(TypeAt(original, ln));
    assert rtn.Ok?;
    var tw, ta, tn := rtw.value, rta.value, rtn.value;
    var tl := LoginAddressPatchedType(TypeAt(original, ll), serverIp);
    assert Patched(original, serverIp).value
      == UpdateType(UpdateType(UpdateType(UpdateType(original, lw, tw), la, ta), ll, tl), ln, tn);
    StagePatchesKeepNames(TypeAt(original, lw), serverIp);
    StagePatchesKeepNames(TypeAt(original, la), serverIp);
    StagePatchesKeepNames(TypeAt(original, ll), serverIp);
    StagePatchesKeepNames(TypeAt(original, ln), serverIp);
    FourUpdates(original, lw, la, ll, ln, tw, ta, tl, tn);
  }

  /** Four write-backs to four different locations, each keeping the names there. */
  lemma FourUpdates(modules: seq<ModuleDefinition>, lw: TypeLocation, la: TypeLocation, ll: TypeLocation, ln: TypeLocation,
                    tw: TypeDefinition, ta: TypeDefinition, tl: TypeDefinition, tn: TypeDefinition)
    requires IsLocation(modules, lw) && IsLocation(modules, la) && IsLocation(modules, ll) && IsLocation(modules, ln)
    requires lw != la && lw != ll && lw != ln && la != ll && la != ln && ll != ln
    requires HasName(tw, TypeAt(modules, lw).namespace, TypeAt(modules, lw).name)
    requires HasName(ta, TypeAt(modules, la).namespace, TypeAt(modules, la).name)
    requires HasName(tl, TypeAt(modules, ll).namespace, TypeAt(modules, ll).name)
    requires HasName(tn, TypeAt(modules, ln).namespace, TypeAt(modules, ln).name)
    ensures var written := UpdateType(UpdateType(UpdateType(UpdateType(modules, lw, tw), la, ta), ll, tl), ln, tn);
      && SameTypeNames(modules, written)
      && IsLocation(written, lw) && IsLocation(written, la) && IsLocation(written, ll) && IsLocation(written, ln)
      && TypeAt(written, lw) == tw && TypeAt(written, la) == ta && TypeAt(written, ll) == tl && TypeAt(written, ln) == tn
      && (forall l :: IsLocation(modules, l) && l != lw && l != la && l != ll && l != ln ==>
            IsLocation(written, l) && TypeAt(written, l) == TypeAt(modules, l))
  {
    var m1 := UpdateType(modules, lw, tw);
    UpdateTypeKeepsLayout(modules, lw, tw);
    var m2 := UpdateType(m1, la, ta);
    UpdateTypeKeepsLayout(m1, la, ta);
    var m3 := UpdateType(m2, ll, tl);
    UpdateTypeKeepsLayout(m2, ll, tl);
    UpdateTypeKeepsLayout(m3, ln, tn);
  }

  /**
   * After the patch, each encrypted sender of `Abrakam.NetworkManager` has the
   * body its plain counterpart had when loaded, and the plain senders are unchanged.
   */
  lemma {:induction false} PatchedSendBodies(original: seq<ModuleDefinition>, serverIp: string)
    requires Patched(original, serverIp).Ok?
    ensures GetType(original, GameNamespace, NetworkManager).Ok?
    ensures var written := Patched(original, serverIp).value;
      var ln := GetType(original, GameNamespace, NetworkManager).value;
      IsLocation(written, ln) && IsLocation(original, ln) &&
      var n, p := TypeAt(original, ln), TypeAt(written, ln);
      HasSendMethods(n) &&
      var e, s := GetMethod(n, SendEncryptedCommand).value, GetMethod(n, SendCommand).value;
      var ne, ns := GetMethod(n, SendNonSequencedEncryptedCommand).value, GetMethod(n, SendNonSequencedCommand).value;
      && GetMethod(p, SendEncryptedCommand) == Ok(e) && GetMethod(p, SendCommand) == Ok(s)
      && p.methods[e].body == n.methods[s].body && p.methods[s] == n.methods[s]
      && GetMethod(p, SendNonSequencedEncryptedCommand) == Ok(ne) && GetMethod(p, SendNonSequencedCommand) == Ok(ns)
      && p.methods[ne].body == n.methods[ns].body && p.methods[ns] == n.methods[ns]
  {
    PatchedContents(original, serverIp);
    var ln := GetType(original, GameNamespace, NetworkManager).value;
    var n := TypeAt(original, ln);
    EncryptionDisabledTypeEffect(n);
    var p := EncryptionDisabledType(n).value;
    GetMethodSameNames(n, p, SendEncryptedCommand);
    GetMethodSameNames(n, p, SendCommand);
    GetMethodSameNames(n, p, SendNonSequencedEncryptedCommand);
    GetMethodSameNames(n, p, SendNonSequencedCommand);
  }

  // ---- The order of the stages ----

  /** The four stages of `Main` run in the opposite order. */
  function PatchedInReverse(original: seq<ModuleDefinition>, serverIp: string): Result<seq<ModuleDefinition>, PatchError>
  {
    var m1 :- TrafficEncryptionDisabled(original);
    var m2 :- LoginServerIpPatched(m1, serverIp);
    var m3 :- StatusCheckAddressPatched(m2, serverIp);
    GameServerIpPatched(m3, serverIp)
  }

  /** In the opposite order the stages succeed under the same condition as in `Main`'s order. */
  lemma {:induction false} PatchedInReverseSucceedsIff(original: seq<ModuleDefinition>, serverIp: string)
    ensures PatchedInReverse(original, serverIp).Ok? <==> Patchable(original)
  {
    var rn := GetType(original, GameNamespace, NetworkManager);
    if rn.Err? { return; }
    var ln := rn.value;
    EncryptionDisabledTypeEffect(TypeAt(original, ln));
    var rtn := EncryptionDisabledType(TypeAt(original, ln));
    if rtn.Err? { return; }
    var tn := rtn.value;
    StagePatchesKeepNames(TypeAt(original, ln), serverIp);
    var r1 := UpdateType(original, ln, tn);
    UpdateTypeKeepsLayout(original, ln, tn);
    UpdateTypeKeepsLookups(original, ln, tn);
    assert TrafficEncryptionDisabled(original) == Ok(r1);

    var rl := GetType(original, GameNamespace, AuthenticationManager);
    assert GetType(r1, GameNamespace, AuthenticationManager) == rl;
    if rl.Err? { return; }
    var ll := rl.value;
    assert ll != ln;
    var tl := LoginAddressPatchedType(TypeAt(original, ll), serverIp);
    StagePatchesKeepNames(TypeAt(original, ll), serverIp);
    var r2 := UpdateType(r1, ll, tl);
    UpdateTypeKeepsLayout(r1, ll, tl);
    UpdateTypeKeepsLookups(r1, ll, tl);
    assert LoginServerIpPatched(r1, serverIp) == Ok(r2);

    var ra := GetType(original, GameNamespace, ApplicationManager);
    assert GetType(r2, GameNamespace, ApplicationManager) == ra;
    if ra.Err? { return; }
    var la := ra.value;
    assert la != ln && la != ll;
    assert TypeAt(r2, la) == TypeAt(original, la);
    StatusAddressesPatchedTypeEffect(TypeAt(original, la), serverIp);
    var rta := StatusAddressesPatchedType(TypeAt(original, la), serverIp);
    if rta.Err? { return; }
    var ta := rta.value;
    StagePatchesKeepNames(TypeAt(original, la), serverIp);
    var r3 := UpdateType(r2, la, ta);
    UpdateTypeKeepsLayout(r2, la, ta);
    UpdateTypeKeepsLookups(r2, la, ta);
    assert StatusCheckAddressPatched(r2, serverIp) == Ok(r3);

    var rw := GetType(original, GameNamespace, WorldNetworkManager);
    assert GetType(r3, GameNamespace, WorldNetworkManager) == rw;
    if rw.Err? { return; }
    var lw := rw.value;
    assert lw != ln && lw != ll && lw != la;
    assert TypeAt(r3, lw) == TypeAt(original, lw);
    StaticFieldPatchedTypeEffect(TypeAt(original, lw), GameServerIpField, serverIp);
  }

  /** When the patch succeeds, running the stages in the opposite order writes the same assembly. */
  lemma {:induction false} PatchedInReverseAgrees(original: seq<ModuleDefinition>, serverIp: string)
    requires Patched(original, serverIp).Ok?
    ensures PatchedInReverse(original, serverIp) == Patched(original, serverIp)
  {
    PatchedStagesIndependent(original, serverIp);
    PatchedContents(original, serverIp);
    var lw := GetType(original, GameNamespace, WorldNetworkManager).value;
    var la := GetType(original, GameNamespace, ApplicationManager).value;
    var ll := GetType(original, GameNamespace, AuthenticationManager).value;
    var ln := GetType(original, GameNamespace, NetworkManager).value;
    var tw := StaticFieldPatchedType(TypeAt(original, lw), GameServerIpField, serverIp).value;
    var ta := StatusAddressesPatchedType(TypeAt(original, la), serverIp).value;
    var tl := LoginAddressPatchedType(TypeAt(original, ll), serverIp);
    var tn := EncryptionDisabledType(TypeAt(original, ln)).value;
    StagePatchesKeepNames(TypeAt(original, lw), serverIp);
    StagePatchesKeepNames(TypeAt(original, la), serverIp);
    StagePatchesKeepNames(TypeAt(original, ll), serverIp);
    StagePatchesKeepNames(TypeAt(original, ln), serverIp);
    assert lw != la && lw != ll && lw != ln && la != ll && la != ln && ll != ln;

    var r1 := UpdateType(original, ln, tn);
    UpdateTypeKeepsLayout(original, ln, tn);
    UpdateTypeKeepsLookups(original, ln, tn);
    assert TrafficEncryptionDisabled(original) == Ok(r1);
    assert TypeAt(r1, ll) == TypeAt(original, ll);
    var r2 := UpdateType(r1, ll, tl);
    UpdateTypeKeepsLayout(r1, ll, tl);
    UpdateTypeKeepsLookups(r1, ll, tl);
    assert LoginServerIpPatched(r1, serverIp) == Ok(r2);
    assert TypeAt(r2, la) == TypeAt(original, la);
    var r3 := UpdateType(r2, la, ta);
    UpdateTypeKeepsLayout(r2, la, ta);
    UpdateTypeKeepsLookups(r2, la, ta);
    assert StatusCheckAddressPatched(r2, serverIp) == Ok(r3);
    assert TypeAt(r3, lw) == TypeAt(original, lw);
    var r4 := UpdateType(r3, lw, tw);
    assert GameServerIpPatched(r3, serverIp) == Ok(r4);

    // Move each later write-back of `Main`'s order past the earlier ones.
    UpdateTypesCommute(original, ln, ll, tn, tl);
    UpdateTypesCommute(original, ln, la, tn, ta);
    UpdateTypesCommute(original, ln, lw, tn, tw);
    UpdateTypesCommute(UpdateType(original, ll, tl), ln, la, tn, ta);
    UpdateTypesCommute(UpdateType(original, ll, tl), ln, lw, tn, tw);
    UpdateTypesCommute(UpdateType(UpdateType(original, ll, tl), la, ta), ln, lw, tn, tw);
    UpdateTypesCommute(original, ll, la, tl, ta);
    UpdateTypesCommute(original, ll, lw, tl, tw);
    UpdateTypesCommute(UpdateType(original, la, ta), ll, lw, tl, tw);
    UpdateTypesCommute(original, la, lw, ta, tw);
    assert r4 == UpdateType(UpdateType(UpdateType(UpdateType(original, lw, tw), la, ta), ll, tl), ln, tn);
  }

  /**
   * The order of the four stages does not change what is written: both orders
   * succeed on the same assemblies and then write the same one. Only which
   * failure is reported first can differ.
   */
  lemma {:induction false} StageOrderIrrelevant(original: seq<ModuleDefinition>, serverIp: string)
    ensures PatchedInReverse(original, serverIp).Ok? <==> Patched(original, serverIp).Ok?
    ensures Patched(original, serverIp).Ok? ==> PatchedInReverse(original, serverIp) == Patched(original, serverIp)
  {
    PatchedSucceedsIff(original, serverIp);
    PatchedInReverseSucceedsIff(original, serverIp);
    if Patched(original, serverIp).Ok? {
      PatchedInReverseAgrees(original, serverIp);
    }
  }
}
