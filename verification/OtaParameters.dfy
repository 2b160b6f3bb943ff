/**
  The command line of otapreopt in its ten versions. An update may be driven by
  an older package manager, which sends fewer arguments; they must mean what the
  current line means with the missing arguments filled in.
*/
module OtaParameters {
  import opened Wrappers
  import AbNames

  /** An int that is used for its bits: the positions that are set, 0 to 31. */
  type Word = set<nat>

  const DEXOPT_PUBLIC: Word := {1}
  const DEXOPT_DEBUGGABLE: Word := {2}
  const DEXOPT_BOOTCOMPLETE: Word := {3}
  const DEXOPT_PROFILE_GUIDED: Word := {4}
  const DEXOPT_GENERATE_COMPACT_DEX: Word := {11}
  const DEXOPT_MASK: Word := {1, 2, 3, 4, 5, 6, 7, 8, 9, 10, 11, 12}

  const OLD_DEXOPT_PUBLIC: Word := {1}
  const OLD_DEXOPT_DEBUGGABLE: Word := {3}
  const OLD_DEXOPT_BOOTCOMPLETE: Word := {4}
  const OLD_DEXOPT_PROFILE_GUIDED: Word := {5}
  const OLD_DEXOPT_OTA: Word := {6}

  const DEX2OAT_FROM_SCRATCH := 1
  const PRIMARY_PROFILE: string := "primary.prof"
  const AB_OTA: string := "ab-ota"

  /** The number parsers of the C library: atoi as a number, atoi as its bits, strtoll for an unsigned int. */
  datatype Lib = Lib(atoi: string -> int, bits: string -> Word, parseUInt: string -> Option<nat>)

  function ParseBool(param: string): bool {
    param == "true"
  }

  function ParseNull(param: string): Option<string> {
    if param == "!" then None else Some(param)
  }

  function ReplaceMask(input: Word, oldMask: Word, newMask: Word): Word {
    if input * oldMask != {} then newMask else {}
  }

  datatype Parameters = Parameters(
    apkPath: string, uid: int, pkgName: string, instructionSet: string, dexoptNeeded: int, oatDir: string,
    dexoptFlags: Word, compilerFilter: string, volumeUuid: Option<string>, sharedLibraries: Option<string>,
    seInfo: Option<string>, downgrade: bool, targetSdkVersion: int, profileName: Option<string>,
    dexMetadataPath: Option<string>, compilationReason: Option<string>)

  /** The number of arguments after "dexopt". */
  function ArgCount(version: nat): Option<nat> {
    if 2 <= version <= 6 then Some(version + 9)
    else if 7 <= version <= 10 then Some(16)
    else None
  }

  function CompactDexBefore8(version: nat): Word {
    if version < 8 then DEXOPT_GENERATE_COMPACT_DEX else {}
  }

  /** `p` with the values that arguments added after version 1 have when they are not sent. */
  function WithDefaults(p: Parameters): Parameters {
    p.(seInfo := None, downgrade := false, targetSdkVersion := 0, profileName := Some(PRIMARY_PROFILE),
       dexMetadataPath := None, compilationReason := Some(AB_OTA), dexoptFlags := DEXOPT_GENERATE_COMPACT_DEX)
  }

  /** `p` once the first `n` arguments of a line of some version after the first were stored. */
  function Stored(lib: Lib, version: nat, p: Parameters, args: seq<string>, n: nat): Parameters
    requires n <= |args|
  {
    Parameters(
      if n > 0 then args[0] else p.apkPath,
      if n > 1 then lib.atoi(args[1]) else p.uid,
      if n > 2 then args[2] else p.pkgName,
      if n > 3 then args[3] else p.instructionSet,
      if n > 4 then lib.atoi(args[4]) else p.dexoptNeeded,
      if n > 5 then args[5] else p.oatDir,
      if n > 6 then lib.bits(args[6]) + CompactDexBefore8(version) else p.dexoptFlags,
      if n > 7 then args[7] else p.compilerFilter,
      if n > 8 then ParseNull(args[8]) else p.volumeUuid,
      if n > 9 then ParseNull(args[9]) else p.sharedLibraries,
      if n > 10 then ParseNull(args[10]) else p.seInfo,
      if n > 11 then ParseBool(args[11]) else p.downgrade,
      if n > 12 then lib.atoi(args[12]) else p.targetSdkVersion,
      if n > 13 then ParseNull(args[13]) else p.profileName,
      if n > 14 then ParseNull(args[14]) else p.dexMetadataPath,
      if n > 15 then ParseNull(args[15]) else p.compilationReason)
  }

  /** `p` with the argument at index `i` of such a line stored. */
  function StoreOne(lib: Lib, version: nat, p: Parameters, i: nat, param: string): Parameters {
    match i
    case 0 => p.(apkPath := param)
    case 1 => p.(uid := lib.atoi(param))
    case 2 => p.(pkgName := param)
    case 3 => p.(instructionSet := param)
    case 4 => p.(dexoptNeeded := lib.atoi(param))
    case 5 => p.(oatDir := param)
    case 6 => p.(dexoptFlags := lib.bits(param) + CompactDexBefore8(version))
    case 7 => p.(compilerFilter := param)
    case 8 => p.(volumeUuid := ParseNull(param))
    case 9 => p.(sharedLibraries := ParseNull(param))
    case 10 => p.(seInfo := ParseNull(param))
    case 11 => p.(downgrade := ParseBool(param))
    case 12 => p.(targetSdkVersion := lib.atoi(param))
    case 13 => p.(profileName := ParseNull(param))
    case 14 => p.(dexMetadataPath := ParseNull(param))
    case 15 => p.(compilationReason := ParseNull(param))
    case _ => p
  }

  lemma StoredNextEarly(lib: Lib, version: nat, p: Parameters, args: seq<string>, i: nat)
    requires i < |args| <= 16 && i < 7
    ensures Stored(lib, version, p, args, i + 1) == StoreOne(lib, version, Stored(lib, version, p, args, i), i, args[i])
  {
  }

  lemma StoredNextLate(lib: Lib, version: nat, p: Parameters, args: seq<string>, i: nat)
    requires i < |args| <= 16 && i >= 7
    ensures Stored(lib, version, p, args, i + 1) == StoreOne(lib, version, Stored(lib, version, p, args, i), i, args[i])
  {
  }

  lemma StoredNext(lib: Lib, version: nat, p: Parameters, args: seq<string>, i: nat)
    requires i < |args| <= 16
    ensures Stored(lib, version, p, args, i + 1) == StoreOne(lib, version, Stored(lib, version, p, args, i), i, args[i])
  {
    if i < 7 {
      StoredNextEarly(lib, version, p, args, i);
    } else {
      StoredNextLate(lib, version, p, args, i);
    }
  }

  /** The flags of version 1, moved to where they are now. */
  function Remapped(input: Word): Word {
    ReplaceMask(input, OLD_DEXOPT_PUBLIC, DEXOPT_PUBLIC)
    + ReplaceMask(input, OLD_DEXOPT_DEBUGGABLE, DEXOPT_DEBUGGABLE)
    + ReplaceMask(input, OLD_DEXOPT_BOOTCOMPLETE, DEXOPT_BOOTCOMPLETE)
    + ReplaceMask(input, OLD_DEXOPT_PROFILE_GUIDED, DEXOPT_PROFILE_GUIDED)
    + ReplaceMask(input, OLD_DEXOPT_OTA, {})
  }

  /** `p` once the first `n` arguments of a version 1 line were stored. */
  function StoredV1(lib: Lib, p: Parameters, args: seq<string>, n: nat): Parameters
    requires n <= |args|
  {
    p.(apkPath := if n > 0 then args[0] else p.apkPath,
       uid := if n > 1 then lib.atoi(args[1]) else p.uid,
       pkgName := if n > 2 then args[2] else p.pkgName,
       instructionSet := if n > 3 then args[3] else p.instructionSet,
       dexoptNeeded := if n > 4 then DEX2OAT_FROM_SCRATCH else p.dexoptNeeded,
       oatDir := if n > 5 then args[5] else p.oatDir,
       dexoptFlags := if n > 6 then p.dexoptFlags + Remapped(lib.bits(args[6])) else p.dexoptFlags,
       compilerFilter := if n > 7 then args[7] else p.compilerFilter,
       volumeUuid := if n > 8 then ParseNull(args[8]) else p.volumeUuid,
       sharedLibraries := if n > 9 then ParseNull(args[9]) else p.sharedLibraries)
  }

  /** `p` with the argument at index `i` of a version 1 line stored. */
  function StoreOneV1(lib: Lib, p: Parameters, i: nat, param: string): Parameters {
    match i
    case 0 => p.(apkPath := param)
    case 1 => p.(uid := lib.atoi(param))
    case 2 => p.(pkgName := param)
    case 3 => p.(instructionSet := param)
    case 4 => p.(dexoptNeeded := DEX2OAT_FROM_SCRATCH)
    case 5 => p.(oatDir := param)
    case 6 => p.(dexoptFlags := p.dexoptFlags + Remapped(lib.bits(param)))
    case 7 => p.(compilerFilter := param)
    case 8 => p.(volumeUuid := ParseNull(param))
    case 9 => p.(sharedLibraries := ParseNull(param))
    case _ => p
  }

  lemma StoredNextV1(lib: Lib, p: Parameters, args: seq<string>, i: nat)
    requires i < |args| && i < 10
    ensures StoredV1(lib, p, args, i + 1) == StoreOneV1(lib, StoredV1(lib, p, args, i), i, args[i])
  {
  }

  // ----- What a command line means

  /** A line of version 1: ten arguments after "dexopt". */
  function MeaningV1(lib: Lib, p: Parameters, args: seq<string>): Option<Parameters> {
    if |args| != 10 then None else Some(StoredV1(lib, WithDefaults(p), args, 10))
  }

  /** A line of a later version; `rest` starts with "dexopt". */
  function MeaningPostV1(lib: Lib, version: nat, p: Parameters, rest: seq<string>): Option<Parameters> {
    if rest == [] || rest[0] != "dexopt" || ArgCount(version) != Some(|rest| - 1) then None
    else
      var args := rest[1..];
      if version < 10 && args[9] == "&" then None
      else Some(Stored(lib, version, WithDefaults(p), args, |args|))
  }

  /** The slot and the parameters a line stands for; None when it is refused. The `p` it starts from does not matter. */
  function Meaning(lib: Lib, p: Parameters, argv: seq<string>): Option<(string, Parameters)> {
    if |argv| < 3 || !AbNames.IsSlot(argv[1]) then None
    else
      var read :=
        if argv[2] == "dexopt" then
          if |argv| == 14 then MeaningPostV1(lib, 2, p, argv[2..]) else MeaningV1(lib, p, argv[3..])
        else
          match lib.parseUInt(argv[2])
          case None => None
          case Some(version) => MeaningPostV1(lib, version, p, argv[3..]);
      if read.None? then None else Some((argv[1], read.value))
  }

  // ----- The reader

  /** The switch over the versions. */
  method ExpectedArgCount(version: nat) returns (count: Option<nat>)
    ensures count == ArgCount(version)
  {
    match version {
      case 2 => count := Some(11);
      case 3 => count := Some(12);
      case 4 => count := Some(13);
      case 5 => count := Some(14);
      case 6 => count := Some(15);
      case 7 => count := Some(16);
      case 8 => count := Some(16);
      case 9 => count := Some(16);
      case 10 => count := Some(16);
      case _ => count := None;
    }
  }

  class OTAPreoptParameters {
    var apkPath: string
    var uid: int
    var pkgName: string
    var instructionSet: string
    var dexoptNeeded: int
    var oatDir: string
    var dexoptFlags: Word
    var compilerFilter: string
    var volumeUuid: Option<string>
    var sharedLibraries: Option<string>
    var seInfo: Option<string>
    var downgrade: bool
    var targetSdkVersion: int
    var profileName: Option<string>
    var dexMetadataPath: Option<string>
    var compilationReason: Option<string>
    var targetSlot: string

    ghost function Value(): Parameters
      reads this
    {
      Parameters(apkPath, uid, pkgName, instructionSet, dexoptNeeded, oatDir, dexoptFlags, compilerFilter, volumeUuid,
                 sharedLibraries, seInfo, downgrade, targetSdkVersion, profileName, dexMetadataPath, compilationReason)
    }

    method SetDefaultsForPostV1Arguments()
      modifies `seInfo, `downgrade, `targetSdkVersion, `profileName, `dexMetadataPath, `compilationReason, `dexoptFlags
      ensures seInfo == None && !downgrade && targetSdkVersion == 0 && profileName == Some(PRIMARY_PROFILE)
      ensures dexMetadataPath == None && compilationReason == Some(AB_OTA) && dexoptFlags == DEXOPT_GENERATE_COMPACT_DEX
    {
      seInfo := None;
      downgrade := false;
      targetSdkVersion := 0;
      profileName := Some(PRIMARY_PROFILE);
      dexMetadataPath := None;
      compilationReason := Some(AB_OTA);
      dexoptFlags := DEXOPT_GENERATE_COMPACT_DEX;
    }

    method ReadArgumentsV1(lib: Lib, argv: seq<string>) returns (ok: bool)
      requires |argv| >= 3
      modifies this
      ensures targetSlot == old(targetSlot)
      ensures ok <==> argv[2] == "dexopt" && MeaningV1(lib, old(Value()), argv[3..]).Some?
      ensures ok ==> Some(Value()) == MeaningV1(lib, old(Value()), argv[3..])
    {
      if argv[2] != "dexopt" {
        return false;
      }
      SetDefaultsForPostV1Arguments();
      ghost var start := Value();
      ghost var args := argv[3..];
      var i := 0;
      while 3 + i < |argv|
        invariant 0 <= i <= |args| && i <= 10
        invariant Value() == StoredV1(lib, start, args, i) && targetSlot == old(targetSlot)
      {
        if i >= 10 {
          return false;
        }
        StoreArgumentV1(lib, i, argv[3 + i]);
        StoredNextV1(lib, start, args, i);
        i := i + 1;
      }
      ok := i == 10;
    }

    method ReadArgumentsPostV1(lib: Lib, version: nat, argv: seq<string>, versioned: bool) returns (ok: bool)
      requires |argv| >= (if versioned then 3 else 2)
      modifies this
      ensures targetSlot == old(targetSlot)
      ensures var read := MeaningPostV1(lib, version, old(Value()), argv[if versioned then 3 else 2..]);
              (ok <==> read.Some?) && (ok ==> read == Some(Value()))
    {
      var expected := ExpectedArgCount(version);
      if expected.None? {
        return false;
      }
      var dexopt := if versioned then 3 else 2;
      ghost var rest := argv[dexopt..];
      if |argv| == dexopt {
        return false;
      }
      if argv[dexopt] != "dexopt" {
        return false;
      }
      var actual := 0;
      while dexopt + 1 + actual < |argv|
        invariant dexopt + 1 + actual <= |argv|
      {
        actual := actual + 1;
      }
      if actual != expected.value {
        return false;
      }
      assert rest[1..] == argv[dexopt + 1..];
      ok := ReadCounted(lib, version, argv[dexopt + 1..]);
    }

    /** The rest of ReadArgumentsPostV1, once the number of arguments is right. */
    method ReadCounted(lib: Lib, version: nat, args: seq<string>) returns (ok: bool)
      requires 10 <= |args| <= 16
      modifies this
      ensures targetSlot == old(targetSlot)
      ensures Value() == Stored(lib, version, WithDefaults(old(Value())), args, |args|)
      ensures ok <==> version >= 10 || args[9] != "&"
    {
      SetDefaultsForPostV1Arguments();
      StoreArguments(lib, version, args);
      assert sharedLibraries == Value().sharedLibraries == ParseNull(args[9]);
      if version < 10 {
        if sharedLibraries.Some? && sharedLibraries.value == "&" {
          return false;
        }
      }
      ok := true;
    }

    /** The loop over the arguments after "dexopt". */
    method StoreArguments(lib: Lib, version: nat, args: seq<string>)
      requires |args| <= 16
      modifies this
      ensures targetSlot == old(targetSlot)
      ensures Value() == Stored(lib, version, old(Value()), args, |args|)
    {
      ghost var start := Value();
      var i := 0;
      while i < |args|
        invariant 0 <= i <= |args|
        invariant Value() == Stored(lib, version, start, args, i) && targetSlot == old(targetSlot)
      {
        StoreArgument(lib, version, i, args[i]);
        StoredNext(lib, version, start, args, i);
        i := i + 1;
      }
    }

    method StoreArgument(lib: Lib, version: nat, i: nat, param: string)
      requires i < 16
      modifies this
      ensures targetSlot == old(targetSlot)
      ensures Value() == StoreOne(lib, version, old(Value()), i, param)
    {
      if i < 8 {
        StoreFirst(lib, version, i, param);
      } else {
        StoreLast(lib, version, i, param);
      }
    }

    /** The first eight cases of the switch. */
    method StoreFirst(lib: Lib, version: nat, i: nat, param: string)
      requires i < 8
      modifies this
      ensures targetSlot == old(targetSlot)
      ensures Value() == StoreOne(lib, version, old(Value()), i, param)
    {
      match i {
        case 0 => apkPath := param;
        case 1 => uid := lib.atoi(param);
        case 2 => pkgName := param;
        case 3 => instructionSet := param;
        case 4 => dexoptNeeded := lib.atoi(param);
        case 5 => oatDir := param;
        case 6 =>
          dexoptFlags := lib.bits(param);
          dexoptFlags := dexoptFlags + (if version < 8 then DEXOPT_GENERATE_COMPACT_DEX else {});
        case 7 => compilerFilter := param;
        case _ => assert false;
      }
    }

    /** The other eight. */
    method StoreLast(lib: Lib, version: nat, i: nat, param: string)
      requires 8 <= i < 16
      modifies this
      ensures targetSlot == old(targetSlot)
      ensures Value() == StoreOne(lib, version, old(Value()), i, param)
    {
      match i {
        case 8 => volumeUuid := ParseNull(param);
        case 9 => sharedLibraries := ParseNull(param);
        case 10 => seInfo := ParseNull(param);
        case 11 => downgrade := ParseBool(param);
        case 12 => targetSdkVersion := lib.atoi(param);
        case 13 => profileName := ParseNull(param);
        case 14 => dexMetadataPath := ParseNull(param);
        case 15 => compilationReason := ParseNull(param);
        case _ => assert false;
      }
    }

    method StoreArgumentV1(lib: Lib, i: nat, param: string)
      requires i < 10
      modifies this
      ensures targetSlot == old(targetSlot)
      ensures Value() == StoreOneV1(lib, old(Value()), i, param)
    {
      match i {
        case 0 => apkPath := param;
        case 1 => uid := lib.atoi(param);
        case 2 => pkgName := param;
        case 3 => instructionSet := param;
        case 4 => dexoptNeeded := DEX2OAT_FROM_SCRATCH;
        case 5 => oatDir := param;
        case 6 => dexoptFlags := dexoptFlags + Remapped(lib.bits(param));
        case 7 => compilerFilter := param;
        case 8 => volumeUuid := ParseNull(param);
        case 9 => sharedLibraries := ParseNull(param);
        case _ => assert false;
      }
    }

    /** The first argument is the program; after the last one argv holds a null pointer. */
    method ReadArguments(lib: Lib, argv: seq<string>) returns (ok: bool)
      requires argv != []
      modifies this
      ensures var read := Meaning(lib, old(Value()), argv);
              (ok <==> read.Some?) && (ok ==> read == Some((targetSlot, Value())))
    {
      if |argv| == 1 {
        return false;
      }
      targetSlot := argv[1];
      if !AbNames.IsSlot(targetSlot) {
        return false;
      }
      if |argv| == 2 {
        return false;
      }
      if argv[2] == "dexopt" {
        if |argv| == 14 {
          ok := ReadArgumentsPostV1(lib, 2, argv, false);
        } else {
          ok := ReadArgumentsV1(lib, argv);
        }
        return;
      }
      var version := lib.parseUInt(argv[2]);
      if version.None? {
        return false;
      }
      ok := ReadArgumentsPostV1(lib, version.value, argv, true);
    }
  }

  // ----- Every version means the version 10 line with the missing arguments

  /** The arguments a line of the current version sends for the defaults of the older ones. */
  const DEFAULT_ARGS: seq<string> := ["!", "false", "0", PRIMARY_PROFILE, "!", AB_OTA]

  /** The arguments a line with `n` arguments does not send. */
  function Missing(n: nat): seq<string>
    requires 10 <= n <= 16
  {
    DEFAULT_ARGS[n - 10..]
  }

  function Line(slot: string, version: string, args: seq<string>): seq<string> {
    ["otapreopt", slot, version, "dexopt"] + args
  }

  lemma LineParts(slot: string, version: string, args: seq<string>)
    ensures var l := Line(slot, version, args);
            |l| == 4 + |args| && l[1] == slot && l[2] == version && l[3..] == ["dexopt"] + args && l[3..][1..] == args
  {
  }

  /** Storing the missing arguments is leaving the defaults. */
  lemma MissingAreDefaults(lib: Lib, version: nat, p: Parameters, args: seq<string>)
    requires 10 <= |args| <= 16 && lib.atoi("0") == 0
    ensures Stored(lib, version, WithDefaults(p), args, |args|)
            == Stored(lib, version, WithDefaults(p), args + Missing(|args|), 16)
  {
    var all := args + Missing(|args|);
    assert |all| == 16;
    assert forall i | |args| <= i < 16 :: all[i] == DEFAULT_ARGS[i - 10];
    assert |args| <= 10 ==> all[10] == "!";
    assert |args| <= 11 ==> all[11] == "false";
    assert |args| <= 12 ==> all[12] == "0";
    assert |args| <= 13 ==> all[13] == PRIMARY_PROFILE;
    assert |args| <= 14 ==> all[14] == "!";
    assert |args| <= 15 ==> all[15] == AB_OTA;
  }

  /**
    A line of version 2 to 9 whose shared libraries are not "&" means what the
    version 10 line means that sends the missing arguments itself, with the
    compact-dex flag added below version 8. With "&" it is refused.
  */
  lemma VersionsAgree(lib: Lib, p: Parameters, slot: string, v: string, version: nat, ten: string, args: seq<string>)
    requires AbNames.IsSlot(slot) && lib.atoi("0") == 0
    requires v != "dexopt" && lib.parseUInt(v) == Some(version) && 2 <= version <= 9
    requires ten != "dexopt" && lib.parseUInt(ten) == Some(10)
    requires ArgCount(version) == Some(|args|)
    ensures var now := Meaning(lib, p, Line(slot, ten, args + Missing(|args|)));
            && now.Some? && now.value.0 == slot
            && Meaning(lib, p, Line(slot, v, args)) ==
               if args[9] == "&" then None
               else
                 var q := now.value.1;
                 Some((slot, q.(dexoptFlags := q.dexoptFlags + CompactDexBefore8(version))))
  {
    var all := args + Missing(|args|);
    LineParts(slot, v, args);
    LineParts(slot, ten, all);
    MissingAreDefaults(lib, version, p, args);
    assert all[..|args|] == args;
    assert forall i | 0 <= i < |args| :: all[i] == args[i];
    OnlyFlagsDiffer(lib, version, p, all);
  }

  lemma OnlyFlagsDiffer(lib: Lib, version: nat, p: Parameters, all: seq<string>)
    requires |all| == 16
    ensures var q := Stored(lib, 10, WithDefaults(p), all, 16);
            Stored(lib, version, WithDefaults(p), all, 16)
            == q.(dexoptFlags := q.dexoptFlags + CompactDexBefore8(version))
  {
    assert lib.bits(all[6]) + {} == lib.bits(all[6]);
  }

  /** The version 2 line without a version number. */
  lemma UnversionedIsVersionTwo(lib: Lib, p: Parameters, slot: string, two: string, args: seq<string>)
    requires two != "dexopt" && lib.parseUInt(two) == Some(2) && |args| == 11
    ensures Meaning(lib, p, ["otapreopt", slot, "dexopt"] + args) == Meaning(lib, p, Line(slot, two, args))
  {
    LineParts(slot, two, args);
    var l := ["otapreopt", slot, "dexopt"] + args;
    assert l[2] == "dexopt" && l[2..] == ["dexopt"] + args;
  }

  /** A version 1 line, with its flags moved and a compilation from scratch asked for. */
  lemma VersionOneUpgrades(lib: Lib, p: Parameters, slot: string, ten: string, args: seq<string>)
    requires AbNames.IsSlot(slot) && lib.atoi("0") == 0
    requires ten != "dexopt" && lib.parseUInt(ten) == Some(10) && |args| == 10
    ensures var now := Meaning(lib, p, Line(slot, ten, args + Missing(10)));
            && now.Some?
            && Meaning(lib, p, ["otapreopt", slot, "dexopt"] + args) ==
               Some((slot, now.value.1.(dexoptNeeded := DEX2OAT_FROM_SCRATCH,
                                        dexoptFlags := DEXOPT_GENERATE_COMPACT_DEX + Remapped(lib.bits(args[6])))))
  {
    var all := args + Missing(10);
    LineParts(slot, ten, all);
    MissingAreDefaults(lib, 10, p, args);
    assert forall i | 0 <= i < 10 :: all[i] == args[i];
    var l := ["otapreopt", slot, "dexopt"] + args;
    assert l[2] == "dexopt" && l[3..] == args && |l| == 13;
  }

  /** A parameter that may be null: an exclamation mark stands for it. */
  ghost predicate IsNullable(value: Option<string>, param: string) {
    if param == "!" then value.None? else value == Some(param)
  }

  /** Every field of a line of the current version, argument by argument. */
  lemma CurrentLine(lib: Lib, p: Parameters, slot: string, ten: string, a: seq<string>)
    requires AbNames.IsSlot(slot) && ten != "dexopt" && lib.parseUInt(ten) == Some(10) && |a| == 16
    ensures var read := Meaning(lib, p, ["otapreopt", slot, ten, "dexopt"] + a);
            && read.Some? && read.value.0 == slot
            && var q := read.value.1;
               && q.apkPath == a[0] && q.uid == lib.atoi(a[1]) && q.pkgName == a[2] && q.instructionSet == a[3]
               && q.dexoptNeeded == lib.atoi(a[4]) && q.oatDir == a[5] && q.dexoptFlags == lib.bits(a[6])
               && q.compilerFilter == a[7] && IsNullable(q.volumeUuid, a[8]) && IsNullable(q.sharedLibraries, a[9])
               && IsNullable(q.seInfo, a[10]) && (q.downgrade <==> a[11] == "true")
               && q.targetSdkVersion == lib.atoi(a[12]) && IsNullable(q.profileName, a[13])
               && IsNullable(q.dexMetadataPath, a[14]) && IsNullable(q.compilationReason, a[15])
  {
    LineParts(slot, ten, a);
  }

  /** What a line means does not depend on what the parameters were before. */
  lemma LineDecidesAll(lib: Lib, p: Parameters, q: Parameters, argv: seq<string>)
    ensures Meaning(lib, p, argv) == Meaning(lib, q, argv)
  {
  }

  // ----- The flags of version 1

  /** The remapped flags bit by bit: each old flag moves to its new place, nothing else is set. */
  lemma RemapIsBitExact(input: Word, k: nat)
    ensures var r := DEXOPT_GENERATE_COMPACT_DEX + Remapped(input);
            && r <= DEXOPT_MASK
            && (k in r <==>
                  match k
                  case 1 => 1 in input
                  case 2 => 3 in input
                  case 3 => 4 in input
                  case 4 => 5 in input
                  case 11 => true
                  case _ => false)
  {
    assert forall m: nat :: input * {m} != {} <==> m in input by {
      forall m: nat ensures input * {m} != {} <==> m in input {
        if m in input {
          assert m in input * {m};
        }
      }
    }
  }
}
