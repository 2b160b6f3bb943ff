/**
  `move_ab`: putting the artifacts that an update wrote for the other slot in
  the place of the current ones, file by file, with renames that may fail.
*/
module MoveAb {
  import opened Wrappers
  import opened AbNames

  /** What is at a path: a regular file, or something that is not one. */
  datatype File = Regular(content: string) | Other

  type Files = map<string, File>

  /** Which unlinks and renames the system lets through. */
  datatype Os = Os(unlinks: string -> bool, renames: (string, string) -> bool)

  // ----- The system calls

  function Unlinked(os: Os, files: Files, path: string): (Files, bool) {
    if path in files && os.unlinks(path) then (files - {path}, true) else (files, false)
  }

  function Renamed(os: Os, files: Files, from: string, to: string): (Files, bool) {
    if from in files && os.renames(from, to) then ((files - {from})[to := files[from]], true) else (files, false)
  }

  class Disk {
    var files: Files
    const os: Os

    constructor (files: Files, os: Os)
      ensures this.files == files && this.os == os
    {
      this.files, this.os := files, os;
    }

    method Unlink(path: string) returns (ok: bool)
      modifies this
      ensures (files, ok) == Unlinked(os, old(files), path)
    {
      ok := path in files && os.unlinks(path);
      if ok {
        files := files - {path};
      }
    }

    method Rename(from: string, to: string) returns (ok: bool)
      modifies this
      ensures (files, ok) == Renamed(os, old(files), from, to)
    {
      ok := from in files && os.renames(from, to);
      if ok {
        files := (files - {from})[to := files[from]];
      }
    }
  }

  // ----- Moving one artifact

  function UnlinkedAndRenamed(os: Os, files: Files, from: string, to: string): (Files, bool) {
    if to in files then
      if files[to].Other? then (files, false)
      else
        var (files', ok) := Unlinked(os, files, to);
        if ok then Renamed(os, files', from, to) else (files', false)
    else
      Renamed(os, files, from, to)
  }

  method UnlinkAndRename(disk: Disk, from: string, to: string) returns (ok: bool)
    modifies disk
    ensures (disk.files, ok) == UnlinkedAndRenamed(disk.os, old(disk.files), from, to)
  {
    if to in disk.files {
      if disk.files[to].Other? {
        return false;
      }
      var gone := disk.Unlink(to);
      if !gone {
        return false;
      }
    }
    ok := disk.Rename(from, to);
  }

  function Moved(os: Os, files: Files, b: string, a: string): (Files, bool) {
    if b !in files then (files, false)
    else if files[b].Other? then (Unlinked(os, files, b).0, false)
    else
      var (files', ok) := UnlinkedAndRenamed(os, files, b, a);
      if ok then (files', true) else (Unlinked(os, files', b).0, false)
  }

  method MoveAbPath(disk: Disk, b: string, a: string) returns (ok: bool)
    modifies disk
    ensures (disk.files, ok) == Moved(disk.os, old(disk.files), b, a)
  {
    if b !in disk.files {
      return false;
    }
    if disk.files[b].Other? {
      var _ := disk.Unlink(b);
      return false;
    }
    ok := UnlinkAndRename(disk, b, a);
    if !ok {
      var _ := disk.Unlink(b);
    }
  }

  // ----- Moving all three

  /** The oat, vdex and image path of one slot. */
  datatype Artifacts = Artifacts(oat: string, vdex: string, image: string)

  function AllMoved(os: Os, files: Files, a: Artifacts, b: Artifacts): (Files, bool) {
    var (f1, oat) := Moved(os, files, b.oat, a.oat);
    if !oat then
      var f2 := Unlinked(os, f1, b.vdex).0;
      (Unlinked(os, f2, b.image).0, false)
    else
      var (f2, vdex) := Moved(os, f1, b.vdex, a.vdex);
      if !vdex then (Unlinked(os, f2, b.image).0, false)
      else if a.image == "" then (f2, true)
      else
        var (f3, image) := Moved(os, f2, b.image, a.image);
        (if image then f3 else Unlinked(os, f3, a.image).0, true)
  }

  /** The property ro.boot.slot_suffix and the outcome of validate_apk_path are the device's. */
  datatype Device = Device(slotSuffix: string, validPath: string -> bool)

  function APaths(oatDir: string, apkPath: string, isa: string): Option<Artifacts> {
    match InstalldOatPath(oatDir, apkPath, isa)
    case None => None
    case Some(oat) => Some(Artifacts(oat, VdexName(oat), ImageName(oat)))
  }

  function BPaths(a: Artifacts, slot: string): Artifacts {
    Artifacts(BName(a.oat, slot), BName(a.vdex, slot), BName(a.image, slot))
  }

  /** Letters, digits and underscores, at least one. */
  predicate IsLegalSlot(slot: string) {
    |slot| > 0 && forall i | 0 <= i < |slot| ::
      || 'a' <= slot[i] <= 'z' || 'A' <= slot[i] <= 'Z' || '0' <= slot[i] <= '9' || slot[i] == '_'
  }

  /** All checks are passed that come before the first file is touched, and `stem` + ".odex" is the oat file. */
  ghost predicate Accepted(device: Device, apkPath: string, isa: string, oatDir: string, stem: string) {
    && IsLegalSlot(device.slotSuffix) && device.validPath(apkPath) && device.validPath(oatDir)
    && IsOatPath(oatDir, apkPath, isa, stem + ".odex")
  }

  /** The A and the B artifacts with this stem. */
  function AOf(stem: string): Artifacts {
    Artifacts(stem + ".odex", stem + ".vdex", stem + ".art")
  }

  function BOf(stem: string, slot: string): Artifacts {
    Artifacts(stem + ".odex." + slot, stem + ".vdex." + slot, stem + ".art." + slot)
  }

  lemma SlotIsLegal(slot: string)
    ensures IsLegalSlot(slot) <==> slot != "" && IsSlot(slot)
  {
    if IsSlot(slot) {
      forall i | 0 <= i < |slot|
        ensures 'a' <= slot[i] <= 'z' || 'A' <= slot[i] <= 'Z' || '0' <= slot[i] <= '9' || slot[i] == '_'
      {
        assert slot[i] in slot;
      }
    }
  }

  lemma StemIsAccepted(device: Device, apkPath: string, isa: string, oatDir: string, stem: string)
    ensures Accepted(device, apkPath, isa, oatDir, stem)
            <==> && device.slotSuffix != "" && IsSlot(device.slotSuffix)
                 && device.validPath(apkPath) && device.validPath(oatDir)
                 && APaths(oatDir, apkPath, isa) == Some(AOf(stem))
    ensures BPaths(AOf(stem), device.slotSuffix) == BOf(stem, device.slotSuffix)
  {
    SlotIsLegal(device.slotSuffix);
    StemPaths(stem, device.slotSuffix);
    OatPathExactly(oatDir, apkPath, isa, stem + ".odex");
    StemIsOat(oatDir, apkPath, isa, stem);
  }

  lemma StemIsOat(oatDir: string, apkPath: string, isa: string, stem: string)
    ensures InstalldOatPath(oatDir, apkPath, isa) == Some(stem + ".odex")
            <==> APaths(oatDir, apkPath, isa) == Some(AOf(stem))
  {
    var oat := InstalldOatPath(oatDir, apkPath, isa);
    if oat.Some? {
      SameStem(oat.value, stem);
    }
  }

  lemma SameStem(oat: string, stem: string)
    ensures oat == stem + ".odex" ==> Artifacts(oat, VdexName(oat), ImageName(oat)) == AOf(stem)
  {
    StemPaths(stem, "");
  }

  lemma StemPaths(stem: string, slot: string)
    ensures VdexName(stem + ".odex") == stem + ".vdex" && ImageName(stem + ".odex") == stem + ".art"
    ensures BPaths(AOf(stem), slot) == BOf(stem, slot)
  {
    ExtensionOfA(stem, ".vdex");
    ExtensionOfA(stem, ".art");
    assert ".odex." == ".odex" + "." && ".vdex." == ".vdex" + "." && ".art." == ".art" + ".";
    assert stem + ".odex." + slot == (stem + ".odex") + "." + slot;
    assert stem + ".vdex." + slot == (stem + ".vdex") + "." + slot;
    assert stem + ".art." + slot == (stem + ".art") + "." + slot;
  }

  /** The checks of the call. */
  predicate Passes(device: Device, apkPath: string, isa: string, oatDir: string) {
    && device.slotSuffix != "" && IsSlot(device.slotSuffix)
    && device.validPath(apkPath) && device.validPath(oatDir)
    && APaths(oatDir, apkPath, isa).Some?
  }

  /** A call passes them exactly when there is a stem that is accepted, and it is the only one. */
  lemma AllStems(device: Device, apkPath: string, isa: string, oatDir: string)
    ensures Passes(device, apkPath, isa, oatDir) <==> exists stem :: Accepted(device, apkPath, isa, oatDir, stem)
    ensures forall stem | Accepted(device, apkPath, isa, oatDir, stem) ::
              && APaths(oatDir, apkPath, isa) == Some(AOf(stem))
              && BPaths(AOf(stem), device.slotSuffix) == BOf(stem, device.slotSuffix)
  {
    forall stem | Accepted(device, apkPath, isa, oatDir, stem)
      ensures Passes(device, apkPath, isa, oatDir) && APaths(oatDir, apkPath, isa) == Some(AOf(stem))
      ensures BPaths(AOf(stem), device.slotSuffix) == BOf(stem, device.slotSuffix)
    {
      StemIsAccepted(device, apkPath, isa, oatDir, stem);
    }
    if Passes(device, apkPath, isa, oatDir) {
      var stem := APathsHaveStem(oatDir, apkPath, isa);
      StemIsAccepted(device, apkPath, isa, oatDir, stem);
    }
  }

  method MoveAb(disk: Disk, device: Device, apkPath: string, isa: string, oatDir: string) returns (success: bool)
    modifies disk
    ensures (forall stem :: !Accepted(device, apkPath, isa, oatDir, stem)) ==> !success && disk.files == old(disk.files)
    ensures forall stem | Accepted(device, apkPath, isa, oatDir, stem) ::
              (disk.files, success) == AllMoved(disk.os, old(disk.files), AOf(stem), BOf(stem, device.slotSuffix))
  {
    AllStems(device, apkPath, isa, oatDir);
    var slot := device.slotSuffix;
    if slot == "" {
      return false;
    }
    if !IsSlot(slot) {
      return false;
    }
    if !device.validPath(apkPath) {
      return false;
    }
    if !device.validPath(oatDir) {
      return false;
    }
    var aOat := InstalldOatPath(oatDir, apkPath, isa);
    if aOat.None? {
      return false;
    }
    var a := Artifacts(aOat.value, VdexName(aOat.value), ImageName(aOat.value));
    success := MoveThree(disk, a, BPaths(a, slot));
  }

  method MoveThree(disk: Disk, a: Artifacts, b: Artifacts) returns (success: bool)
    modifies disk
    ensures (disk.files, success) == AllMoved(disk.os, old(disk.files), a, b)
  {
    success := true;
    var oat := MoveAbPath(disk, b.oat, a.oat);
    if oat {
      var vdex := MoveAbPath(disk, b.vdex, a.vdex);
      if vdex {
        if a.image != "" {
          var image := MoveAbPath(disk, b.image, a.image);
          if !image {
            var _ := disk.Unlink(a.image);
          }
        }
      } else {
        var _ := disk.Unlink(b.image);
        success := false;
      }
    } else {
      var _ := disk.Unlink(b.vdex);
      var _ := disk.Unlink(b.image);
      success := false;
    }
  }

  // ----- The six paths are different

  ghost predicate Apart(a: Artifacts, b: Artifacts) {
    && a.oat != a.vdex && a.oat != a.image && a.vdex != a.image
    && b.oat != b.vdex && b.oat != b.image && b.vdex != b.image
    && {a.oat, a.vdex, a.image} !! {b.oat, b.vdex, b.image}
    && a.image != ""
  }

  /** Names with different extensions stay different with and without the slot. */
  lemma ExtensionsApart(stem: string, ext1: string, ext2: string, slot: string)
    requires |ext1| > 1 && |ext2| > 1 && ext1[1] != ext2[1]
    ensures var x, y := stem + ext1, stem + ext2;
            x != y && BName(x, slot) != BName(y, slot) && x != BName(y, slot) && y != BName(x, slot)
  {
    var x, y, k := stem + ext1, stem + ext2, |stem| + 1;
    assert x[k] == ext1[1] == BName(x, slot)[k];
    assert y[k] == ext2[1] == BName(y, slot)[k];
  }

  lemma SlotIsApart(x: string, slot: string)
    ensures BName(x, slot) != x
  {
    assert |BName(x, slot)| > |x|;
  }

  lemma ThreeApart(stem: string, e1: string, e2: string, e3: string, slot: string)
    requires |e1| > 1 && |e2| > 1 && |e3| > 1 && e1[1] != e2[1] && e1[1] != e3[1] && e2[1] != e3[1]
    ensures var a := Artifacts(stem + e1, stem + e2, stem + e3); Apart(a, BPaths(a, slot))
  {
    ExtensionsApart(stem, e1, e2, slot);
    ExtensionsApart(stem, e1, e3, slot);
    ExtensionsApart(stem, e2, e3, slot);
    SlotIsApart(stem + e1, slot);
    SlotIsApart(stem + e2, slot);
    SlotIsApart(stem + e3, slot);
    assert |stem + e3| > 0;
  }

  lemma APathsHaveStem(oatDir: string, apkPath: string, isa: string) returns (stem: string)
    requires APaths(oatDir, apkPath, isa).Some?
    ensures APaths(oatDir, apkPath, isa).value == Artifacts(stem + ".odex", stem + ".vdex", stem + ".art")
  {
    stem := AHasStem(oatDir, apkPath, isa);
    ExtensionOfA(stem, ".vdex");
    ExtensionOfA(stem, ".art");
  }

  lemma NamesAreApart(oatDir: string, apkPath: string, isa: string, slot: string)
    requires APaths(oatDir, apkPath, isa).Some?
    ensures var a := APaths(oatDir, apkPath, isa).value; Apart(a, BPaths(a, slot))
  {
    var stem := APathsHaveStem(oatDir, apkPath, isa);
    ThreeApart(stem, ".odex", ".vdex", ".art", slot);
  }

  // ----- What a run leaves behind

  ghost predicate Plain(files: Files, path: string) {
    path in files ==> files[path].Regular?
  }

  /** The six paths hold regular files or nothing, and they can be unlinked. */
  ghost predicate Works(os: Os, files: Files, a: Artifacts, b: Artifacts) {
    forall p <- {a.oat, a.vdex, a.image, b.oat, b.vdex, b.image} :: Plain(files, p) && os.unlinks(p)
  }

  function At(files: Files, path: string): Option<File> {
    if path in files then Some(files[path]) else None
  }

  /** A B artifact is there and its rename will succeed. */
  predicate Movable(os: Os, files: Files, b: string, a: string) {
    b in files && os.renames(b, a)
  }

  /**
    The A artifact after an attempt to move the B artifact: the old B file when
    it was moved, nothing when a rename failed, the old A file when there was
    no B file.
  */
  function Replaced(os: Os, files: Files, b: string, a: string): Option<File> {
    if Movable(os, files, b, a) then Some(files[b])
    else if b in files then None
    else At(files, a)
  }

  ghost predicate SameElsewhere(files: Files, files': Files, paths: set<string>) {
    forall p: string | p !in paths :: At(files, p) == At(files', p)
  }

  lemma MoveOne(os: Os, files: Files, b: string, a: string)
    requires a != b && Plain(files, a) && Plain(files, b) && os.unlinks(a) && os.unlinks(b)
    ensures var (files', ok) := Moved(os, files, b, a);
            && ok == Movable(os, files, b, a)
            && At(files', b) == None
            && At(files', a) == Replaced(os, files, b, a)
            && SameElsewhere(files, files', {a, b})
  {
  }

  /** What every run past validation leaves at the six paths, and that it touches no other. */
  ghost predicate Outcome(os: Os, files: Files, files': Files, a: Artifacts, b: Artifacts, success: bool) {
    var oat := Movable(os, files, b.oat, a.oat);
    var vdex := Movable(os, files, b.vdex, a.vdex);
    && success == (oat && vdex)
    && b.oat !in files' && b.vdex !in files' && b.image !in files'
    && At(files', a.oat) == Replaced(os, files, b.oat, a.oat)
    && At(files', a.vdex) == (if oat then Replaced(os, files, b.vdex, a.vdex) else At(files, a.vdex))
    && At(files', a.image) ==
       (if !success then At(files, a.image)
        else if Movable(os, files, b.image, a.image) then Some(files[b.image])
        else None)
    && SameElsewhere(files, files', {a.oat, a.vdex, a.image, b.oat, b.vdex, b.image})
  }

  lemma RunOutcome(os: Os, files: Files, a: Artifacts, b: Artifacts)
    requires Apart(a, b) && Works(os, files, a, b)
    ensures var (files', success) := AllMoved(os, files, a, b);
            Outcome(os, files, files', a, b, success)
  {
    MoveOne(os, files, b.oat, a.oat);
    var (f1, oat) := Moved(os, files, b.oat, a.oat);
    Untouched(os, files, f1, b.vdex, a.vdex, {a.oat, b.oat});
    Untouched(os, files, f1, b.image, a.image, {a.oat, b.oat});
    if oat {
      MoveOne(os, f1, b.vdex, a.vdex);
      var (f2, vdex) := Moved(os, f1, b.vdex, a.vdex);
      Untouched(os, f1, f2, b.image, a.image, {a.vdex, b.vdex});
      assert At(f2, a.oat) == At(f1, a.oat) && At(f2, b.oat) == None;
      if vdex {
        MoveOne(os, f2, b.image, a.image);
      }
    }
  }

  /** A step at other paths leaves an artifact and its counterpart as they were. */
  lemma Untouched(os: Os, files: Files, files': Files, b: string, a: string, paths: set<string>)
    requires SameElsewhere(files, files', paths) && a !in paths && b !in paths
    requires Plain(files, a) && Plain(files, b)
    ensures At(files', a) == At(files, a) && At(files', b) == At(files, b)
    ensures Plain(files', a) && Plain(files', b)
    ensures Movable(os, files', b, a) == Movable(os, files, b, a)
    ensures Replaced(os, files', b, a) == Replaced(os, files, b, a)
  {
    assert At(files, a) == At(files', a) && At(files, b) == At(files', b);
  }

  // ----- The promises

  /** No B artifact survives a run, so no later run can pick up a leftover of this one. */
  lemma NoBArtifactSurvives(os: Os, files: Files, a: Artifacts, b: Artifacts)
    requires Apart(a, b) && Works(os, files, a, b)
    ensures var files' := AllMoved(os, files, a, b).0;
            b.oat !in files' && b.vdex !in files' && b.image !in files'
  {
    RunOutcome(os, files, a, b);
  }

  /** A successful run leaves the three B artifacts of one update, the image possibly missing but never an old one. */
  lemma SuccessIsComplete(os: Os, files: Files, a: Artifacts, b: Artifacts)
    requires Apart(a, b) && Works(os, files, a, b) && AllMoved(os, files, a, b).1
    ensures var files' := AllMoved(os, files, a, b).0;
            && b.oat in files && b.vdex in files
            && At(files', a.oat) == At(files, b.oat)
            && At(files', a.vdex) == At(files, b.vdex)
            && (a.image in files' ==> At(files', a.image) == At(files, b.image))
  {
    RunOutcome(os, files, a, b);
  }

  /** A second run finds nothing to move and changes nothing. */
  lemma SecondRunChangesNothing(os: Os, files: Files, a: Artifacts, b: Artifacts)
    requires Apart(a, b) && Works(os, files, a, b)
    ensures var files' := AllMoved(os, files, a, b).0;
            AllMoved(os, files', a, b) == (files', false)
  {
    RunOutcome(os, files, a, b);
  }

  /**
    The mixed outcome, a new A oat file beside the old A vdex file, happens
    exactly when the B oat file is moved, there is no B vdex file, and there is
    an old A vdex file.
  */
  lemma StaleVdex(os: Os, files: Files, a: Artifacts, b: Artifacts)
    requires Apart(a, b) && Works(os, files, a, b)
    requires b.vdex in files ==> At(files, b.vdex) != At(files, a.vdex)
    requires b.oat in files ==> At(files, b.oat) != At(files, a.oat)
    ensures var files' := AllMoved(os, files, a, b).0;
            (&& b.oat in files && At(files', a.oat) == At(files, b.oat)
             && a.vdex in files' && At(files', a.vdex) == At(files, a.vdex))
            <==> (Movable(os, files, b.oat, a.oat) && b.vdex !in files && a.vdex in files)
  {
    RunOutcome(os, files, a, b);
  }

  /** The promises hold of every accepted call, with the paths that the apk's name gives. */
  lemma AcceptedCall(os: Os, files: Files, device: Device, apkPath: string, isa: string, oatDir: string, stem: string)
    requires Accepted(device, apkPath, isa, oatDir, stem)
    requires Works(os, files, AOf(stem), BOf(stem, device.slotSuffix))
    ensures var a, b := AOf(stem), BOf(stem, device.slotSuffix);
            var (files', success) := AllMoved(os, files, a, b);
            Outcome(os, files, files', a, b, success) && AllMoved(os, files', a, b) == (files', false)
  {
    StemIsAccepted(device, apkPath, isa, oatDir, stem);
    NamesAreApart(oatDir, apkPath, isa, device.slotSuffix);
    var a, b := AOf(stem), BOf(stem, device.slotSuffix);
    RunOutcome(os, files, a, b);
    SecondRunChangesNothing(os, files, a, b);
  }
}
