/**
  The names of A/B artifacts. otapreopt writes the B artifacts of an update
  under names it computes itself; installd later computes where to find them
  from the names of the A artifacts and the slot. These are the two
  computations, and exactly when they meet.
*/
module AbNames {
  import opened Wrappers
  import opened Strings

  /** The size of a path buffer, terminator included. */
  const PKG_PATH_MAX: nat := 1024

  // ----- installd

  predicate IsAbsolutePath(path: string) {
    path != [] && path[0] == '/' && !Contains(path, "..")
  }

  predicate IsValidInstructionSet(isa: string) {
    '/' !in isa
  }

  /** calculate_oat_file_path_default: the A oat file. */
  function InstalldOatPath(oatDir: string, apkPath: string, isa: string): (r: Option<string>) {
    if !IsAbsolutePath(oatDir) || !IsAbsolutePath(apkPath) || !IsValidInstructionSet(isa) then None
    else
      match LastIndex(apkPath, '.')
      case None => None
      case Some(end) =>
        match LastIndex(apkPath[..end], '/')
        case None => None
        case Some(start) =>
          var path := oatDir + "/" + isa + "/" + apkPath[start + 1..end] + ".odex";
          if |path| >= PKG_PATH_MAX then None else Some(path)
  }

  /** Absolute, and without two dots in a row. */
  predicate IsCleanPath(path: string) {
    |path| > 0 && path[0] == '/' && forall k | 0 <= k < |path| - 1 :: !(path[k] == '.' && path[k + 1] == '.')
  }

  lemma CleanIsAbsolute(path: string)
    ensures IsAbsolutePath(path) <==> IsCleanPath(path)
  {
    var dots := "..";
    forall k | MatchesAt(path, dots, k) ensures !IsCleanPath(path) {
      assert path[k + 0] == dots[0] && path[k + 1] == dots[1];
    }
    forall k | 0 <= k < |path| - 1 && path[k] == '.' && path[k + 1] == '.' ensures MatchesAt(path, dots, k) {
    }
  }

  /** A directory, a name without slashes, and an extension without dots. */
  ghost predicate Splits(apkPath: string, dir: string, name: string, ext: string) {
    apkPath == dir + "/" + name + "." + ext && '/' !in name && '.' !in ext
  }

  /** The oat file of an apk: its name, with another extension, in the directory for the instruction set. */
  ghost predicate IsOatPath(oatDir: string, apkPath: string, isa: string, oat: string) {
    && IsCleanPath(oatDir) && IsCleanPath(apkPath) && '/' !in isa && |oat| < 1024
    && exists dir, name, ext :: Splits(apkPath, dir, name, ext) && oat == oatDir + "/" + isa + "/" + name + ".odex"
  }

  /** installd has a path for exactly these oat files. */
  lemma OatPathExactly(oatDir: string, apkPath: string, isa: string, oat: string)
    ensures InstalldOatPath(oatDir, apkPath, isa) == Some(oat) <==> IsOatPath(oatDir, apkPath, isa, oat)
  {
    CleanIsAbsolute(oatDir);
    CleanIsAbsolute(apkPath);
    if InstalldOatPath(oatDir, apkPath, isa) == Some(oat) {
      var dir, name, ext := SplitOf(apkPath);
      SplitGivesPath(oatDir, apkPath, isa, dir, name, ext);
    }
    if IsOatPath(oatDir, apkPath, isa, oat) {
      var dir, name, ext :| Splits(apkPath, dir, name, ext) && oat == oatDir + "/" + isa + "/" + name + ".odex";
      SplitGivesPath(oatDir, apkPath, isa, dir, name, ext);
    }
  }

  lemma SplitOf(apkPath: string) returns (dir: string, name: string, ext: string)
    requires LastIndex(apkPath, '.').Some? && LastIndex(apkPath[..LastIndex(apkPath, '.').value], '/').Some?
    ensures Splits(apkPath, dir, name, ext)
  {
    var end := LastIndex(apkPath, '.').value;
    var start := LastIndex(apkPath[..end], '/').value;
    dir, name, ext := apkPath[..start], apkPath[start + 1..end], apkPath[end + 1..];
    assert apkPath == dir + "/" + name + "." + ext;
  }

  lemma SplitGivesPath(oatDir: string, apkPath: string, isa: string, dir: string, name: string, ext: string)
    requires Splits(apkPath, dir, name, ext)
    ensures var path := oatDir + "/" + isa + "/" + name + ".odex";
            InstalldOatPath(oatDir, apkPath, isa)
            == if && IsAbsolutePath(oatDir) && IsAbsolutePath(apkPath) && IsValidInstructionSet(isa)
                  && |path| < PKG_PATH_MAX
               then Some(path) else None
  {
    SplitIsFound(apkPath, dir, name, ext);
  }

  lemma SplitIsFound(apkPath: string, dir: string, name: string, ext: string)
    requires Splits(apkPath, dir, name, ext)
    ensures var start, end := |dir|, |dir| + 1 + |name|;
            && LastIndex(apkPath, '.') == Some(end) && LastIndex(apkPath[..end], '/') == Some(start)
            && apkPath[start + 1..end] == name
  {
    var start, end := |dir|, |dir| + 1 + |name|;
    assert apkPath[end] == '.' && apkPath[end + 1..] == ext && apkPath[start + 1..end] == name;
    forall i | end < i < |apkPath| ensures apkPath[i] != '.' {
      assert apkPath[i] == ext[i - end - 1];
    }
    LastIndexIs(apkPath, '.', end);
    var head := apkPath[..end];
    forall i | start < i < |head| ensures head[i] != '/' {
      assert head[i] == name[i - start - 1];
    }
    LastIndexIs(head, '/', start);
  }

  /** replace_file_extension; the empty string is its error value. */
  function ReplaceFileExtension(oatPath: string, newExt: string): string {
    if EndsWith(oatPath, ".dex") then oatPath[..|oatPath| - 4] + newExt
    else
      match LastMatch(oatPath, ".odex")
      case Some(at) => oatPath[..at] + newExt + oatPath[at + 5..]
      case None => ""
  }

  function VdexName(oatPath: string): string {
    ReplaceFileExtension(oatPath, ".vdex")
  }

  function ImageName(oatPath: string): string {
    ReplaceFileExtension(oatPath, ".art")
  }

  /** The name move_ab gives the B artifact that belongs to an A artifact. */
  function BName(aPath: string, slot: string): string {
    aPath + "." + slot
  }

  // ----- otapreopt

  /** snprintf into a path buffer. */
  function Truncated(s: string): string {
    if |s| < PKG_PATH_MAX then s else s[..PKG_PATH_MAX - 1]
  }

  /** calculate_oat_file_path of otapreopt: the B oat file. */
  function OtaOatPath(oatDir: string, apkPath: string, isa: string, slot: string): Option<string> {
    match LastIndex(apkPath, '/')
    case None => None
    case Some(start) =>
      match LastIndex(apkPath[start..], '.')
      case None => None
      case Some(end) =>
        Some(Truncated(oatDir + "/" + isa + "/" + apkPath[start..][1..end] + ".odex." + slot))
  }

  /** ValidateTargetSlotSuffix. */
  predicate IsSlot(slot: string) {
    slot != [] && forall c <- slot :: 'a' <= c <= 'z' || 'A' <= c <= 'Z' || '0' <= c <= '9' || c == '_'
  }

  // ----- Oat files

  /** The apk path has its last dot after its last slash. */
  predicate HasExtension(apkPath: string) {
    match (LastIndex(apkPath, '.'), LastIndex(apkPath, '/'))
    case (Some(dot), Some(slash)) => slash < dot
    case _ => false
  }

  lemma LastIndexIs(s: string, c: char, k: nat)
    requires k < |s| && s[k] == c && forall i | k < i < |s| :: s[i] != c
    ensures LastIndex(s, c) == Some(k)
  {
  }

  lemma LastInHead(s: string, c: char, k: nat, end: nat)
    requires k < end <= |s| && LastIndex(s, c) == Some(k)
    ensures LastIndex(s[..end], c) == Some(k)
  {
    LastIndexIs(s[..end], c, k);
  }

  lemma LastInTail(s: string, c: char, k: nat, start: nat)
    requires start <= k < |s| && LastIndex(s, c) == Some(k)
    ensures LastIndex(s[start..], c) == Some(k - start)
  {
    LastIndexIs(s[start..], c, k - start);
  }

  /** With an extension, both sides cut the same file name out of the apk path. */
  lemma SameFileName(apkPath: string, end: nat, slash: nat)
    requires LastIndex(apkPath, '.') == Some(end) && LastIndex(apkPath, '/') == Some(slash) && slash < end
    ensures LastIndex(apkPath[..end], '/') == Some(slash)
    ensures LastIndex(apkPath[slash..], '.') == Some(end - slash)
    ensures apkPath[slash..][1..end - slash] == apkPath[slash + 1..end]
  {
    LastInHead(apkPath, '/', slash, end);
    LastInTail(apkPath, '.', end, slash);
  }

  lemma Dotted(stem: string, slot: string)
    ensures stem + ".odex." + slot == BName(stem + ".odex", slot)
  {
    assert ".odex." == ".odex" + ".";
  }

  /**
    For every path installd accepts, otapreopt writes the oat file where
    installd looks for it if and only if the apk path has an extension and the
    B name still fits the buffer.
  */
  lemma OatNamesMeet(oatDir: string, apkPath: string, isa: string, slot: string)
    requires InstalldOatPath(oatDir, apkPath, isa).Some?
    ensures var a := InstalldOatPath(oatDir, apkPath, isa).value;
            OtaOatPath(oatDir, apkPath, isa, slot) == Some(BName(a, slot))
            <==> HasExtension(apkPath) && |BName(a, slot)| < PKG_PATH_MAX
  {
    var a := InstalldOatPath(oatDir, apkPath, isa).value;
    if HasExtension(apkPath) {
      var slash := LastIndex(apkPath, '/').value;
      var end := LastIndex(apkPath, '.').value;
      SameFileName(apkPath, end, slash);
      Dotted(oatDir + "/" + isa + "/" + apkPath[slash + 1..end], slot);
    } else {
      NoExtension(apkPath);
    }
  }

  /** A dot in a directory name only: installd cuts at it, otapreopt gives up. */
  lemma NoExtension(apkPath: string)
    requires LastIndex(apkPath, '/').Some? && LastIndex(apkPath, '.').Some? && !HasExtension(apkPath)
    ensures LastIndex(apkPath[LastIndex(apkPath, '/').value..], '.').None?
  {
    var slash := LastIndex(apkPath, '/').value;
    assert '.' !in apkPath[slash..];
  }

  // ----- Vdex and image files

  predicate StartsWithOdex(slot: string) {
    |slot| >= 4 && slot[0] == 'o' && slot[1] == 'd' && slot[2] == 'e' && slot[3] == 'x'
  }

  /** The slots whose names do not confuse the search for the extension. */
  predicate PlainSlot(slot: string) {
    slot != "dex" && !StartsWithOdex(slot)
  }

  predicate OdexAt(s: string, k: int) {
    && 0 <= k && k + 5 <= |s|
    && s[k] == '.' && s[k + 1] == 'o' && s[k + 2] == 'd' && s[k + 3] == 'e' && s[k + 4] == 'x'
  }

  predicate DexAt(s: string, k: int) {
    0 <= k && k + 4 <= |s| && s[k] == '.' && s[k + 1] == 'd' && s[k + 2] == 'e' && s[k + 3] == 'x'
  }

  lemma MatchesOdex(s: string, k: int)
    ensures MatchesAt(s, ".odex", k) <==> OdexAt(s, k)
  {
    if MatchesAt(s, ".odex", k) {
      var p := ".odex";
      assert s[k + 0] == p[0] && s[k + 1] == p[1] && s[k + 2] == p[2] && s[k + 3] == p[3] && s[k + 4] == p[4];
    }
  }

  lemma MatchesDex(s: string, k: int)
    ensures MatchesAt(s, ".dex", k) <==> DexAt(s, k)
  {
    if MatchesAt(s, ".dex", k) {
      var p := ".dex";
      assert s[k + 0] == p[0] && s[k + 1] == p[1] && s[k + 2] == p[2] && s[k + 3] == p[3];
    }
  }

  lemma LastOdexIs(s: string, k: int)
    requires OdexAt(s, k) && forall j | j > k :: !OdexAt(s, j)
    ensures LastMatch(s, ".odex") == Some(k)
  {
    MatchesOdex(s, k);
    if LastMatch(s, ".odex") != Some(k) {
      var j := LastMatch(s, ".odex").value;
      MatchesOdex(s, j);
    }
  }

  /** A path that is a stem, the extension ".odex", a dot and a slot. */
  ghost predicate IsB(b: string, stem: string, slot: string) {
    var at := |stem|;
    && |b| == at + 6 + |slot| && OdexAt(b, at) && b[at + 5] == '.'
    && b[..at] == stem && b[at + 6..] == slot && forall i | 0 <= i < |slot| :: b[at + 6 + i] == slot[i]
  }

  lemma BHasShape(stem: string, slot: string)
    ensures IsB(stem + ".odex" + "." + slot, stem, slot)
  {
    var p, b := ".odex", stem + ".odex" + "." + slot;
    var at := |stem|;
    assert b[at] == p[0] && b[at + 1] == p[1] && b[at + 2] == p[2] && b[at + 3] == p[3] && b[at + 4] == p[4];
  }

  /** The extension of an A oat file is found at its end. */
  lemma ExtensionOfA(stem: string, newExt: string)
    ensures ReplaceFileExtension(stem + ".odex", newExt) == stem + newExt
  {
    var p, a := ".odex", stem + ".odex";
    var at := |stem|;
    assert a[at] == p[0] && a[at + 1] == p[1] && a[at + 2] == p[2] && a[at + 3] == p[3] && a[at + 4] == p[4];
    MatchesDex(a, |a| - 4);
    LastOdexIs(a, at);
    assert a[..at] == stem && a[at + 5..] == "";
  }

  /** Where the last ".odex" of a B oat file is. */
  lemma OdexOfB(b: string, stem: string, slot: string)
    requires IsB(b, stem, slot) && '.' !in slot
    ensures LastMatch(b, ".odex") == Some(if StartsWithOdex(slot) then |stem| + 5 else |stem|)
  {
    var at := |stem|;
    forall k | at + 6 <= k < |b| ensures b[k] != '.' {
      assert b[at + 6 + (k - at - 6)] == slot[k - at - 6];
    }
    assert forall k | at < k && OdexAt(b, k) :: k == at + 5 && StartsWithOdex(slot);
    if StartsWithOdex(slot) {
      assert b[at + 6 + 0] == 'o' && b[at + 6 + 1] == 'd' && b[at + 6 + 2] == 'e' && b[at + 6 + 3] == 'x';
      LastOdexIs(b, at + 5);
    } else {
      LastOdexIs(b, at);
    }
  }

  /** A B oat file ends in ".dex" exactly for the slot "dex". */
  lemma DexOfB(b: string, stem: string, slot: string)
    requires IsB(b, stem, slot) && '.' !in slot
    ensures EndsWith(b, ".dex") <==> slot == "dex"
  {
    var at := |stem| + 6;
    MatchesDex(b, |b| - 4);
    if |slot| > 3 {
      assert b[at + (|slot| - 4)] == slot[|slot| - 4];
    } else if |slot| == 3 {
      assert b[at + 0] == slot[0] && b[at + 1] == slot[1] && b[at + 2] == slot[2];
      assert slot == [slot[0], slot[1], slot[2]];
    }
  }

  lemma TailOfB(b: string, stem: string, slot: string, newExt: string)
    requires IsB(b, stem, slot)
    ensures b[..|stem|] + newExt + b[|stem| + 5..] == stem + newExt + "." + slot
  {
    assert b[|stem| + 5..] == [b[|stem| + 5]] + b[|stem| + 6..];
    assert stem + newExt + ("." + slot) == stem + newExt + "." + slot;
  }

  /** What keeps the first extension is not the name of another file. */
  lemma HeadOfB(b: string, stem: string, slot: string, newExt: string, cut: nat, rest: string)
    requires IsB(b, stem, slot) && |stem| + 2 <= cut <= |b| && |newExt| > 1 && newExt[1] != 'o'
    ensures b[..cut] + rest != stem + newExt + "." + slot
  {
    assert (b[..cut] + rest)[|stem| + 1] == b[|stem| + 1];
    assert (stem + newExt + "." + slot)[|stem| + 1] == newExt[1];
  }

  /** The replacement in a B oat file keeps the slot exactly for the plain slots. */
  lemma BReplaced(b: string, stem: string, slot: string, newExt: string)
    requires IsB(b, stem, slot) && '.' !in slot && |newExt| > 1 && newExt[1] != 'o'
    ensures ReplaceFileExtension(b, newExt) == stem + newExt + "." + slot <==> PlainSlot(slot)
  {
    OdexOfB(b, stem, slot);
    DexOfB(b, stem, slot);
    if slot == "dex" {
      HeadOfB(b, stem, slot, newExt, |b| - 4, newExt);
    } else if StartsWithOdex(slot) {
      var cut := |stem| + 5;
      HeadOfB(b, stem, slot, newExt, cut, newExt + b[cut + 5..]);
      assert b[..cut] + newExt + b[cut + 5..] == b[..cut] + (newExt + b[cut + 5..]);
    } else {
      TailOfB(b, stem, slot, newExt);
    }
  }

  /**
    Replacing the extension commutes with appending the slot exactly for the
    plain slots, whatever the new extension is as long as it does not start like ".odex".
  */
  lemma ExtensionCommutes(stem: string, slot: string, newExt: string)
    requires IsSlot(slot) && |newExt| > 1 && newExt[1] != 'o'
    ensures var a := stem + ".odex";
            ReplaceFileExtension(BName(a, slot), newExt) == BName(ReplaceFileExtension(a, newExt), slot)
            <==> PlainSlot(slot)
  {
    var a := stem + ".odex";
    var b := BName(a, slot);
    BHasShape(stem, slot);
    ExtensionOfA(stem, newExt);
    BReplaced(b, stem, slot, newExt);
    assert BName(ReplaceFileExtension(a, newExt), slot) == stem + newExt + "." + slot;
  }

  /** installd's A oat files end in ".odex". */
  lemma AHasStem(oatDir: string, apkPath: string, isa: string) returns (stem: string)
    requires InstalldOatPath(oatDir, apkPath, isa).Some?
    ensures InstalldOatPath(oatDir, apkPath, isa).value == stem + ".odex"
  {
    var a := InstalldOatPath(oatDir, apkPath, isa).value;
    stem := a[..|a| - 5];
  }

  /**
    The naming agreement. For every apk installd accepts and every legal slot,
    all three files otapreopt writes are the ones installd will look for if and
    only if the apk path has an extension, the B name fits the path buffer, and
    the slot is neither "dex" nor starts with "odex".
  */
  lemma NamesMeet(oatDir: string, apkPath: string, isa: string, slot: string)
    requires InstalldOatPath(oatDir, apkPath, isa).Some? && IsSlot(slot)
    ensures var a := InstalldOatPath(oatDir, apkPath, isa).value;
            var b := OtaOatPath(oatDir, apkPath, isa, slot);
            (&& b == Some(BName(a, slot))
             && VdexName(b.value) == BName(VdexName(a), slot)
             && ImageName(b.value) == BName(ImageName(a), slot))
            <==> (HasExtension(apkPath) && |BName(a, slot)| < PKG_PATH_MAX && PlainSlot(slot))
  {
    OatNamesMeet(oatDir, apkPath, isa, slot);
    var stem := AHasStem(oatDir, apkPath, isa);
    ExtensionCommutes(stem, slot, ".vdex");
    ExtensionCommutes(stem, slot, ".art");
  }

  /**
    What happens to the other slots that start with "odex": the B vdex file is
    written to a name that keeps ".odex" and loses the start of the slot.
  */
  lemma OdexSlotIsMisplaced(stem: string, slot: string)
    requires IsSlot(slot) && StartsWithOdex(slot)
    ensures VdexName(BName(stem + ".odex", slot)) == stem + ".odex" + ".vdex" + slot[4..]
    ensures BName(VdexName(stem + ".odex"), slot) == stem + ".vdex" + "." + slot
  {
    var b := BName(stem + ".odex", slot);
    BHasShape(stem, slot);
    OdexOfB(b, stem, slot);
    DexOfB(b, stem, slot);
    ExtensionOfA(stem, ".vdex");
    assert b[..|stem| + 5] == stem + ".odex";
    assert b[|stem| + 10..] == slot[4..];
  }

  // ----- Cache paths

  function Flattened(s: string): (r: string)
    ensures |r| == |s|
    ensures forall k | 0 <= k < |s| :: r[k] == if s[k] == '/' then '@' else s[k]
  {
    if s == [] then [] else [if s[0] == '/' then '@' else s[0]] + Flattened(s[1..])
  }

  const DALVIK_CACHE := "dalvik-cache"
  const DALVIK_CACHE_POSTFIX := "@classes.dex"

  /** create_cache_path_default. */
  function InstalldCachePath(dataDir: string, src: string, isa: string): Option<string> {
    if !IsAbsolutePath(src) || !IsValidInstructionSet(isa) then None
    else
      var path := dataDir + DALVIK_CACHE + "/" + isa + src[..1] + Flattened(src[1..]) + DALVIK_CACHE_POSTFIX;
      if |path| >= PKG_PATH_MAX then None else Some(path)
  }

  /** create_cache_path of otapreopt. */
  function OtaCachePath(otaDir: string, src: string, isa: string): Option<string> {
    if src == [] || src[0] != '/' || Contains(src, "..") then None
    else if |src| > PKG_PATH_MAX then None
    else
      var path := otaDir + "/" + DALVIK_CACHE + "/" + isa + "/" + Flattened(src[1..]) + DALVIK_CACHE_POSTFIX;
      if |path| + 1 > PKG_PATH_MAX then None else Some(path)
  }

  /** Over the same data directory both compute the same cache path, for every input with a legal instruction set. */
  lemma CachePathsMeet(otaDir: string, src: string, isa: string)
    requires IsValidInstructionSet(isa)
    ensures OtaCachePath(otaDir, src, isa) == InstalldCachePath(otaDir + "/", src, isa)
  {
    if IsAbsolutePath(src) {
      assert src[..1] == "/";
      assert otaDir + "/" + DALVIK_CACHE + "/" + isa + "/" + Flattened(src[1..]) + DALVIK_CACHE_POSTFIX
          == (otaDir + "/") + DALVIK_CACHE + "/" + isa + src[..1] + Flattened(src[1..]) + DALVIK_CACHE_POSTFIX;
    }
  }
}
