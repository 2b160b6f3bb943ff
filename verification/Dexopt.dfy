/**
  What `dexopt` runs dex2oat on, and who closes and deletes what. The function opens its input,
  its outputs and a profile, hands the descriptors to dex2oat, and returns from
  a dozen places; destructors do the rest. A destructor is an explicit Destroy
  here, at every exit of the scope its object lives in; nested scopes are methods.
*/
module Dexopt {
  import opened Wrappers
  import opened Strings
  import AbNames

  datatype Event = Opened(fd: int) | Closed(fd: int)

  datatype Mode = ReadOnly | ReadWrite | Create

  /** What is opened: a path, or the reference profile kept for a location. */
  datatype File = Path(path: string) | ReferenceProfile(location: string)

  datatype Opening = Opening(file: File, mode: Mode)

  /** What the system is asked: to open a file, to set the owner of one, to restore contexts, to run dex2oat. */
  datatype Question = OpenFile(opening: Opening) | SetOwner(path: string) | Restorecon | Dex2oat

  datatype Answered = Answered(question: Question, result: int)

  /** The reference profile: not opened, opened for this compilation, or cleared. */
  datatype ProfileUse = Untouched | InUse | Cleared

  /**
    What the process has done: the descriptors it has open, the events that got
    it there, what it opened the descriptors for, what it asked the system, the
    paths it opened for writing and did not unlink since, what became of the
    reference profile, and how dex2oat was run.
  */
  datatype World = World(open: set<int>, events: seq<Event>, names: map<int, Opening>, log: seq<Answered>,
                         outputs: set<string>, profile: ProfileUse, given: Option<Given>)

  /** The descriptors handed to dex2oat, -1 for those there are not, what is open then, and its result. */
  datatype Given = Given(input: int, context: seq<int>, oat: int, inVdex: int, outVdex: int, image: int, swap: int,
                         profile: int, metadata: int, names: map<int, Opening>, result: int)

  // ----- Descriptors over a history

  /** The descriptors open after `events`; None when one of them is closed that is not open or opened twice. */
  function Replay(open: set<int>, events: seq<Event>): Option<set<int>>
    decreases events
  {
    if events == [] then Some(open)
    else
      match events[0]
      case Opened(fd) => if fd in open then None else Replay(open + {fd}, events[1..])
      case Closed(fd) => if fd !in open then None else Replay(open - {fd}, events[1..])
  }

  lemma {:induction false} ReplaySplit(open: set<int>, a: seq<Event>, b: seq<Event>)
    ensures Replay(open, a + b) == match Replay(open, a) case None => None case Some(o) => Replay(o, b)
    decreases a
  {
    if a == [] {
      assert a + b == b;
    } else {
      assert (a + b)[1..] == a[1..] + b;
      match a[0] {
        case Opened(fd) => ReplaySplit(open + {fd}, a[1..], b);
        case Closed(fd) => ReplaySplit(open - {fd}, a[1..], b);
      }
    }
  }

  /** The first event of a descriptor; its position, if it has one. */
  function FirstOf(events: seq<Event>, fd: int): (r: Option<nat>)
    ensures r.Some? ==> r.value < |events| && events[r.value].fd == fd
    ensures r.Some? ==> forall k | 0 <= k < r.value :: events[k].fd != fd
    ensures r.None? ==> forall k | 0 <= k < |events| :: events[k].fd != fd
  {
    if events == [] then None
    else if events[0].fd == fd then Some(0)
    else
      match FirstOf(events[1..], fd)
      case None => None
      case Some(k) => Some(k + 1)
  }

  lemma {:induction false} OpenUntilClosed(open: set<int>, events: seq<Event>, fd: int)
    requires fd in open && Replay(open, events).Some? && fd !in Replay(open, events).value
    ensures FirstOf(events, fd).Some? && events[FirstOf(events, fd).value] == Closed(fd)
    decreases events
  {
    if events[0].fd != fd {
      match events[0] {
        case Opened(x) => OpenUntilClosed(open + {x}, events[1..], fd);
        case Closed(x) => OpenUntilClosed(open - {x}, events[1..], fd);
      }
    }
  }

  /**
    In a history that leaves open what was open before, every descriptor that is
    opened anew is closed exactly once before it may be opened again: the next
    event of the same number is its closing.
  */
  lemma ClosedExactlyOnce(open: set<int>, events: seq<Event>, i: nat)
    requires Replay(open, events) == Some(open)
    requires i < |events| && events[i].Opened? && events[i].fd !in open
    ensures var next := FirstOf(events[i + 1..], events[i].fd);
            next.Some? && events[i + 1 + next.value] == Closed(events[i].fd)
  {
    var fd := events[i].fd;
    var before, rest := events[..i], events[i..];
    assert events == before + rest && rest[1..] == events[i + 1..];
    ReplaySplit(open, before, rest);
    var o := Replay(open, before).value;
    OpenUntilClosed(o + {fd}, events[i + 1..], fd);
  }

  // ----- The system

  function Unlinked(w: World, path: string): World {
    w.(outputs := w.outputs - {path})
  }

  /** The lowest number from `k` on that is not in use. */
  function Lowest(open: set<int>, k: nat): (fd: nat)
    ensures fd !in open && k <= fd
    decreases |open|
  {
    if k !in open then k else Lowest(open - {k}, k + 1)
  }

  /** `w` after an attempt to open a file, which led to `fd` or, when it failed, to -1; the events aside. */
  function Tried(w: World, opening: Opening, fd: int): World {
    var asked := w.(log := w.log + [Answered(OpenFile(opening), fd)]);
    if fd < 0 then asked
    else
      asked.(open := w.open + {fd}, names := w.names[fd := opening],
             outputs := w.outputs
                        + (if opening.file.Path? && opening.mode != ReadOnly then {opening.file.path} else {}))
  }

  predicate SameButEvents(a: World, b: World) {
    a.open == b.open && a.names == b.names && a.log == b.log && a.outputs == b.outputs && a.profile == b.profile
    && a.given == b.given
  }

  /** The system's n-th answer is a result; opening fails when it is negative. */
  predicate Faithful(a: Answered, answer: int) {
    if a.question.OpenFile? then a.result >= -1 && (a.result >= 0 <==> answer >= 0) else a.result == answer
  }

  ghost predicate Honest(answer: nat -> int, log: seq<Answered>) {
    forall k: nat | k < |log| :: Faithful(log[k], answer(k))
  }

  /** A history since `start` that never touches the descriptors of `start`. */
  ghost predicate Orderly(start: set<int>, w: World) {
    && Replay(start, w.events) == Some(w.open)
    && start <= w.open
    && forall e <- w.events :: e.fd !in start
  }

  lemma OneMore(start: set<int>, w: World, e: Event)
    requires Orderly(start, w) && e.fd !in start
    requires e.Opened? ==> e.fd !in w.open
    requires e.Closed? ==> e.fd in w.open
    ensures Orderly(start, w.(open := if e.Opened? then w.open + {e.fd} else w.open - {e.fd}, events := w.events + [e]))
  {
    ReplaySplit(start, w.events, [e]);
    assert [e][1..] == [];
  }

  class System {
    var world: World
    /** The descriptors open when the call began, and what the system answers to its n-th question. */
    const start: set<int>
    const answer: nat -> int

    ghost predicate Valid()
      reads this
    {
      Orderly(start, world) && Honest(answer, world.log) && world.names.Keys <= world.open
    }

    constructor (start: set<int>, answer: nat -> int)
      ensures Valid() && world == World(start, [], map[], [], {}, Untouched, None)
      ensures this.start == start && this.answer == answer
    {
      this.start, this.answer := start, answer;
      world := World(start, [], map[], [], {}, Untouched, None);
    }

    /** Any question but for a descriptor. */
    method Ask(question: Question) returns (n: int)
      requires Valid() && !question.OpenFile?
      modifies this`world
      ensures Valid() && n == answer(|old(world.log)|)
      ensures world == old(world).(log := old(world.log) + [Answered(question, n)])
    {
      n := answer(|world.log|);
      world := world.(log := world.log + [Answered(question, n)]);
    }

    /** The lowest free descriptor, or -1. */
    method Open(file: File, mode: Mode) returns (fd: int)
      requires Valid()
      modifies this`world
      ensures Valid() && (fd >= 0 <==> answer(|old(world.log)|) >= 0)
      ensures fd >= -1 && (fd >= 0 ==> fd !in old(world.open) && fd !in start)
      ensures SameButEvents(world, Tried(old(world), Opening(file, mode), fd))
    {
      var opening := Opening(file, mode);
      if answer(|world.log|) < 0 {
        fd := -1;
        world := Tried(world, opening, -1);
      } else {
        fd := Lowest(world.open, 0);
        OneMore(start, world, Opened(fd));
        world := Tried(world, opening, fd).(events := world.events + [Opened(fd)]);
      }
    }

    method Close(fd: int)
      requires Valid() && fd in world.open && fd !in start
      modifies this`world
      ensures Valid()
      ensures SameButEvents(world, old(world).(open := old(world.open) - {fd}, names := old(world.names) - {fd}))
    {
      OneMore(start, world, Closed(fd));
      world := world.(open := world.open - {fd}, names := world.names - {fd}, events := world.events + [Closed(fd)]);
    }

    method Unlink(path: string)
      requires Valid()
      modifies this`world
      ensures Valid() && world == Unlinked(old(world), path)
    {
      world := world.(outputs := world.outputs - {path});
    }

    /** open_output_file. */
    method OpenOutput(path: string, recreate: bool) returns (fd: int)
      requires Valid()
      modifies this`world
      ensures Valid()
      ensures fd >= -1 && (fd >= 0 ==> fd !in old(world.open) && fd !in start)
      ensures SameButEvents(world, Tried(if recreate then Unlinked(old(world), path) else old(world),
                                         Opening(Path(path), Create), fd))
    {
      if recreate {
        Unlink(path);
      }
      fd := Open(Path(path), Create);
    }

    /** open_reference_profile: from here on this compilation is answerable for the profile. */
    method OpenReferenceProfile(location: string) returns (fd: int)
      requires Valid()
      modifies this`world
      ensures Valid()
      ensures fd >= -1 && (fd >= 0 ==> fd !in old(world.open) && fd !in start)
      ensures var tried := Tried(old(world), Opening(ReferenceProfile(location), ReadOnly), fd);
              SameButEvents(world, tried.(profile := InUse))
    {
      fd := Open(ReferenceProfile(location), ReadOnly);
      world := world.(profile := InUse);
    }

    /** Forks, runs dex2oat on these descriptors and waits for it. */
    method RunDex2oat(input: int, context: seq<int>, oat: int, inVdex: int, outVdex: int, image: int, swap: int,
                      profile: int, metadata: int) returns (res: int)
      requires Valid()
      modifies this`world
      ensures Valid()
      ensures var given := Given(input, context, oat, inVdex, outVdex, image, swap, profile, metadata,
                                 old(world.names), res);
              world == old(world).(given := Some(given), log := old(world.log) + [Answered(Dex2oat, res)])
    {
      ghost var before := world;
      res := Ask(Dex2oat);
      world := world.(given := Some(Given(input, context, oat, inVdex, outVdex, image, swap, profile, metadata,
                                          world.names, res)));
    }

    method ClearReferenceProfile()
      requires Valid()
      modifies this`world
      ensures Valid() && world == old(world).(profile := Cleared)
    {
      world := world.(profile := Cleared);
    }
  }

  // ----- The wrapper

  datatype Cleanup = Nothing | UnlinkPath(path: string) | ClearProfile

  function CleanedUp(w: World, cleanup: Cleanup): World {
    match cleanup
    case Nothing => w
    case UnlinkPath(path) => Unlinked(w, path)
    case ClearProfile => w.(profile := Cleared)
  }

  /** `w` after a wrapper let go of its descriptor and, if asked to, cleaned up; the events aside. */
  function Released(w: World, value: int, closes: bool, cleanup: Cleanup, cleans: bool): World {
    var closed := if closes && value >= 0 then w.(open := w.open - {value}, names := w.names - {value}) else w;
    if cleans then CleanedUp(closed, cleanup) else closed
  }

  class Dex2oatFileWrapper {
    var value: int
    var cleanup: Cleanup
    var doCleanup: bool
    var autoClose: bool

    /** The wrapper may let go of its descriptor: it is open, or it is not this wrapper's to close. */
    ghost predicate Owns(sys: System)
      reads this, sys
    {
      autoClose && value >= 0 ==> value in sys.world.open && value !in sys.start
    }

    constructor Empty()
      ensures value == -1 && cleanup == Nothing && doCleanup && autoClose
    {
      value, cleanup, doCleanup, autoClose := -1, Nothing, true, true;
    }

    constructor (value: int, cleanup: Cleanup)
      ensures this.value == value && this.cleanup == cleanup && doCleanup && autoClose
    {
      this.value, this.cleanup, doCleanup, autoClose := value, cleanup, true, true;
    }

    /** The move constructor: the other wrapper is left with nothing to close or to clean up. */
    constructor Move(other: Dex2oatFileWrapper)
      modifies other
      ensures value == old(other.value) && cleanup == old(other.cleanup)
      ensures doCleanup == old(other.doCleanup) && autoClose == old(other.autoClose)
      ensures other.value == -1 && other.cleanup == Nothing && !other.doCleanup
              && other.autoClose == old(other.autoClose)
    {
      value, cleanup, doCleanup, autoClose := other.value, other.cleanup, other.doCleanup, other.autoClose;
      new;
      other.Release();
    }

    method Release()
      modifies this
      ensures value == -1 && cleanup == Nothing && !doCleanup && autoClose == old(autoClose)
    {
      value, doCleanup, cleanup := -1, false, Nothing;
    }

    method CleanUp(sys: System)
      requires sys.Valid()
      modifies sys`world
      ensures sys.Valid()
      ensures sys.world == if doCleanup then CleanedUp(old(sys.world), cleanup) else old(sys.world)
    {
      if doCleanup {
        match cleanup {
          case Nothing =>
          case UnlinkPath(path) => sys.Unlink(path);
          case ClearProfile => sys.ClearReferenceProfile();
        }
      }
    }

    method Reset(sys: System, newValue: int)
      requires sys.Valid() && Owns(sys)
      modifies this`value, sys`world
      ensures sys.Valid() && value == newValue
      ensures SameButEvents(sys.world, Released(old(sys.world), old(value), autoClose, cleanup, doCleanup))
    {
      if autoClose && value >= 0 {
        sys.Close(value);
      }
      CleanUp(sys);
      value := newValue;
    }

    method ResetWith(sys: System, newValue: int, newCleanup: Cleanup)
      requires sys.Valid() && Owns(sys)
      modifies this`value, this`cleanup, sys`world
      ensures sys.Valid() && value == newValue && cleanup == newCleanup
      ensures SameButEvents(sys.world, Released(old(sys.world), old(value), autoClose, old(cleanup), doCleanup))
    {
      if autoClose && value >= 0 {
        sys.Close(value);
      }
      CleanUp(sys);
      value, cleanup := newValue, newCleanup;
    }

    method SetCleanup(clean: bool)
      modifies this`doCleanup
      ensures doCleanup == clean
    {
      doCleanup := clean;
    }

    method DisableAutoClose()
      modifies this`autoClose
      ensures !autoClose
    {
      autoClose := false;
    }

    /** The destructor. */
    method Destroy(sys: System)
      requires sys.Valid() && Owns(sys)
      modifies this`value, sys`world
      ensures sys.Valid() && value == -1
      ensures SameButEvents(sys.world, Released(old(sys.world), old(value), autoClose, cleanup, doCleanup))
    {
      Reset(sys, -1);
    }
  }

  /** unique_fd. */
  class UniqueFd {
    var value: int

    constructor (value: int)
      ensures this.value == value
    {
      this.value := value;
    }

    method Destroy(sys: System)
      requires sys.Valid() && (value >= 0 ==> value in sys.world.open && value !in sys.start)
      modifies this, sys`world
      ensures sys.Valid() && value == -1
      ensures SameButEvents(sys.world, Released(old(sys.world), old(value), true, Nothing, false))
    {
      if value >= 0 {
        sys.Close(value);
      }
      value := -1;
    }
  }

  // ----- One compilation

  datatype Preparation = Refused | NothingToDo | Proceed

  const DEX2OAT_FROM_SCRATCH := 1
  const DEX2OAT_FOR_BOOT_IMAGE := 2

  /**
    What the arguments, properties and path computations come to: the checks
    before the first open, the path of the oat file (None when it cannot be
    computed), the odex path next to the apk, and the switches.
  */
  datatype Request = Request(
    preparation: Preparation, dexPath: string, contextPaths: seq<string>, oatPath: Option<string>,
    odexPath: Option<string>, dexoptNeeded: int, secondary: bool, isPublic: bool, profileGuided: bool,
    systemServer: bool, profileName: Option<string>, usesSwap: bool, generatesImage: bool, imageFormat: string,
    metadata: Option<string>)

  function SwapName(oat: string): string {
    oat + ".swap"
  }

  /** The descriptor a wrapper or a unique_fd holds, as a set. */
  function Held(fd: int): set<int> {
    if fd >= 0 then {fd} else {}
  }

  // ----- What a request asks for

  /** An existing vdex file is read unless everything is compiled from scratch. */
  predicate ReadsVdex(req: Request) {
    req.dexoptNeeded != 1 && req.dexoptNeeded != -1
  }

  /** The oat file whose vdex file is read. */
  function VdexSource(req: Request, oat: string): string {
    if req.dexoptNeeded < 0 && req.odexPath.Some? then req.odexPath.value else oat
  }

  /** For a new boot image, without a profile, a vdex file is updated where it is. */
  predicate UpdatesVdex(req: Request, oat: string) {
    && (req.dexoptNeeded == 2 || req.dexoptNeeded == -2) && !req.profileGuided
    && AbNames.VdexName(VdexSource(req, oat)) == AbNames.VdexName(oat)
  }

  /** The location whose reference profile is used, if one is. */
  function ProfileLocation(req: Request): Option<string> {
    if !req.profileGuided || req.systemServer || (req.secondary && req.isPublic) then None
    else if req.secondary then Some(req.dexPath)
    else req.profileName
  }

  predicate WantsImage(req: Request) {
    !req.secondary && req.generatesImage && req.imageFormat != ""
  }

  /** The name of a vdex file is missing. */
  predicate VdexNameless(req: Request, oat: string) {
    || AbNames.VdexName(oat) == ""
    || (ReadsVdex(req)
        && ((req.dexoptNeeded < 0 && req.odexPath.None?) || AbNames.VdexName(VdexSource(req, oat)) == ""))
  }

  /** The name of a file that is needed is missing. */
  predicate Nameless(req: Request) {
    req.oatPath.None? || VdexNameless(req, req.oatPath.value)
  }

  // ----- What the system answered

  predicate Failed(a: Answered) {
    if a.question.OpenFile? then a.result < 0 else a.result != 0
  }

  ghost predicate Refuses(log: seq<Answered>, questions: set<Question>) {
    exists a <- log :: a.question in questions && Failed(a)
  }

  /** Without these there is no compilation: the input, the context, the oat and vdex file, and the contexts. */
  ghost predicate IsRequired(req: Request, q: Question) {
    || q == OpenFile(Opening(Path(req.dexPath), ReadOnly))
    || (exists c <- req.contextPaths :: q == OpenFile(Opening(Path(c), ReadOnly)))
    || (req.oatPath.Some? && RequiredOutput(req.oatPath.value, q))
    || (req.secondary && q == Restorecon)
  }

  predicate RequiredOutput(oat: string, q: Question) {
    || q == OpenFile(Opening(Path(oat), Create)) || q == SetOwner(oat)
    || q == OpenFile(Opening(Path(AbNames.VdexName(oat)), Create)) || q == SetOwner(AbNames.VdexName(oat))
  }

  /** The last answer refuses what is required. */
  ghost predicate Stopped(req: Request, log: seq<Answered>) {
    log != [] && Failed(log[|log| - 1]) && IsRequired(req, log[|log| - 1].question)
  }

  // ----- What the descriptors are

  predicate Holding(names: map<int, Opening>, fd: int, opening: Opening) {
    fd >= 0 && fd in names && names[fd] == opening
  }

  /** A descriptor of this file if it is wanted and was not refused, and otherwise -1. */
  ghost predicate Optional(names: map<int, Opening>, log: seq<Answered>, fd: int, wanted: bool, opening: Opening,
                           owner: set<Question>) {
    if fd >= 0 then wanted && Holding(names, fd, opening)
    else fd == -1 && (wanted ==> Refuses(log, {OpenFile(opening)} + owner))
  }

  ghost predicate HoldsAll(names: map<int, Opening>, fds: seq<int>, paths: seq<string>) {
    |fds| == |paths| && forall i | 0 <= i < |fds| :: Holding(names, fds[i], Opening(Path(paths[i]), ReadOnly))
  }

  /** The input vdex file, opened for writing as well when it may be updated, and the output vdex file. */
  ghost predicate VdexFits(req: Request, oat: string, names: map<int, Opening>, log: seq<Answered>, input: int,
                           output: int) {
    && InVdexFits(req, oat, names, log, input)
    && if UpdatesVdex(req, oat) && input >= 0 then output == input
       else Holding(names, output, Opening(Path(AbNames.VdexName(oat)), Create))
  }

  ghost predicate InVdexFits(req: Request, oat: string, names: map<int, Opening>, log: seq<Answered>, input: int) {
    Optional(names, log, input, ReadsVdex(req),
             Opening(Path(AbNames.VdexName(VdexSource(req, oat))),
                     if UpdatesVdex(req, oat) then ReadWrite else ReadOnly), {})
  }

  ghost predicate SwapFits(req: Request, oat: string, names: map<int, Opening>, log: seq<Answered>, fd: int) {
    Optional(names, log, fd, req.usesSwap, Opening(Path(oat + ".swap"), Create), {})
  }

  ghost predicate ImageFits(req: Request, oat: string, names: map<int, Opening>, log: seq<Answered>, fd: int) {
    Optional(names, log, fd, WantsImage(req), Opening(Path(AbNames.ImageName(oat)), Create),
             {SetOwner(AbNames.ImageName(oat))})
  }

  ghost predicate ProfileFits(req: Request, names: map<int, Opening>, log: seq<Answered>, fd: int) {
    var location := ProfileLocation(req);
    Optional(names, log, fd, location.Some?,
             Opening(ReferenceProfile(if location.Some? then location.value else ""), ReadOnly), {})
  }

  ghost predicate MetadataFits(req: Request, names: map<int, Opening>, log: seq<Answered>, fd: int) {
    Optional(names, log, fd, req.metadata.Some?,
             Opening(Path(if req.metadata.Some? then req.metadata.value else ""), ReadOnly), {})
  }

  /** The files a compilation cannot do without, and the vdex file that it reads. */
  ghost predicate MainFits(req: Request, oat: string, names: map<int, Opening>, log: seq<Answered>, input: int,
                           context: seq<int>, outOat: int) {
    && Holding(names, input, Opening(Path(req.dexPath), ReadOnly)) && HoldsAll(names, context, req.contextPaths)
    && Holding(names, outOat, Opening(Path(oat), Create)) && Answered(SetOwner(oat), 0) in log
  }

  /** Every descriptor handed to dex2oat is that of its own file, and all that is required was granted. */
  ghost predicate GivenFits(req: Request, g: Given, log: seq<Answered>) {
    req.oatPath.Some? && !Nameless(req) &&
    var oat := req.oatPath.value;
    && MainFits(req, oat, g.names, log, g.input, g.context, g.oat)
    && VdexFits(req, oat, g.names, log, g.inVdex, g.outVdex) && Answered(SetOwner(AbNames.VdexName(oat)), 0) in log
    && (req.secondary ==> Answered(Restorecon, 0) in log)
    && SwapFits(req, oat, g.names, log, g.swap) && ImageFits(req, oat, g.names, log, g.image)
    && ProfileFits(req, g.names, log, g.profile) && MetadataFits(req, g.names, log, g.metadata)
  }

  /**
    How a compilation went. Either dex2oat did not run, because a name was missing
    or the last answer refused what is required; or it ran on the right files, as
    the last thing asked, and its result is the result.
  */
  ghost predicate Went(req: Request, given: Option<Given>, log: seq<Answered>, profile: ProfileUse, res: int) {
    if given.None? then
      res == -1 && (Nameless(req) || Stopped(req, log)) && profile == Untouched
    else
      && GivenFits(req, given.value, log) && res == given.value.result
      && log != [] && log[|log| - 1] == Answered(Dex2oat, res)
      && profile == ProfileAfter(req, res)
  }

  /** A profile that was used is kept by a success and cleared by a failure. */
  function ProfileAfter(req: Request, res: int): ProfileUse {
    if ProfileLocation(req).None? then Untouched else if res == 0 then InUse else Cleared
  }

  // ----- While files are opened

  /** What was asked and what is open stays. */
  ghost predicate Onward(a: World, b: World) {
    && a.log <= b.log && a.open <= b.open && b.given == a.given
    && forall fd <- a.names.Keys :: fd in b.names && b.names[fd] == a.names[fd]
  }

  lemma OptionalStays(a: World, b: World, fd: int, wanted: bool, opening: Opening, owner: set<Question>)
    requires Onward(a, b) && Optional(a.names, a.log, fd, wanted, opening, owner)
    ensures Optional(b.names, b.log, fd, wanted, opening, owner)
  {
    if Refuses(a.log, {OpenFile(opening)} + owner) {
      var x :| x in a.log && x.question in {OpenFile(opening)} + owner && Failed(x);
      assert x in b.log;
    }
  }

  lemma MainStays(a: World, b: World, req: Request, oat: string, input: int, context: seq<int>, outOat: int)
    requires Onward(a, b) && MainFits(req, oat, a.names, a.log, input, context, outOat)
    ensures MainFits(req, oat, b.names, b.log, input, context, outOat)
  {
    assert forall x <- a.log :: x in b.log;
  }

  lemma VdexStays(a: World, b: World, req: Request, oat: string, input: int, output: int)
    requires Onward(a, b) && VdexFits(req, oat, a.names, a.log, input, output)
    ensures VdexFits(req, oat, b.names, b.log, input, output)
  {
    OptionalStays(a, b, input, ReadsVdex(req),
                  Opening(Path(AbNames.VdexName(VdexSource(req, oat))),
                          if UpdatesVdex(req, oat) then ReadWrite else ReadOnly), {});
  }

  lemma TriedIsOnward(a: World, b: World, opening: Opening, fd: int)
    requires SameButEvents(b, Tried(a, opening, fd)) && (fd >= 0 ==> fd !in a.open) && a.names.Keys <= a.open
    ensures Onward(a, b)
    ensures fd >= 0 ==> Holding(b.names, fd, opening)
    ensures b.log != [] && b.log[|b.log| - 1] == Answered(OpenFile(opening), fd)
    ensures fd < 0 ==> forall questions: set<Question> | OpenFile(opening) in questions :: Refuses(b.log, questions)
  {
    assert b.log[|b.log| - 1] in b.log;
  }

  lemma OnwardTwice(a: World, b: World, c: World)
    requires Onward(a, b) && Onward(b, c)
    ensures Onward(a, c)
  {
  }

  /** open_oat_out_file. */
  method OpenOatOutFile(sys: System, req: Request) returns (w: Dex2oatFileWrapper)
    requires sys.Valid()
    modifies sys
    ensures sys.Valid() && fresh(w) && w.autoClose && w.doCleanup && w.value >= -1
    ensures Held(w.value) !! old(sys.world.open) && sys.world.open == old(sys.world.open) + Held(w.value)
    ensures Held(w.value) !! sys.start && sys.world.profile == old(sys.world.profile)
    ensures Onward(old(sys.world), sys.world)
    ensures w.value >= 0 ==>
              && req.oatPath.Some? && w.cleanup == UnlinkPath(req.oatPath.value)
              && sys.world.outputs == old(sys.world.outputs) + {req.oatPath.value}
              && Holding(sys.world.names, w.value, Opening(Path(req.oatPath.value), Create))
              && Answered(SetOwner(req.oatPath.value), 0) in sys.world.log
    ensures w.value < 0 ==>
              && sys.world.outputs <= old(sys.world.outputs) && w.cleanup != ClearProfile
              && (req.oatPath.None? || Stopped(req, sys.world.log))
  {
    if req.oatPath.None? {
      w := new Dex2oatFileWrapper.Empty();
      return;
    }
    var oat := req.oatPath.value;
    var fd := sys.OpenOutput(oat, true);
    w := new Dex2oatFileWrapper(fd, UnlinkPath(oat));
    if w.value >= 0 {
      var permitted := sys.Ask(SetOwner(oat));
      if permitted != 0 {
        w.Reset(sys, -1);
      } else {
        assert sys.world.log[|sys.world.log| - 1] in sys.world.log;
      }
    }
  }

  /** maybe_open_dexopt_swap_file: the file is unlinked as soon as it is open. */
  method MaybeOpenSwapFile(sys: System, req: Request, oat: string) returns (fd: UniqueFd)
    requires sys.Valid()
    modifies sys
    ensures sys.Valid() && fresh(fd) && fd.value >= -1
    ensures Held(fd.value) !! old(sys.world.open) && sys.world.open == old(sys.world.open) + Held(fd.value)
    ensures Held(fd.value) !! sys.start && sys.world.profile == old(sys.world.profile)
    ensures old(sys.world.outputs) - {SwapName(oat)} <= sys.world.outputs <= old(sys.world.outputs)
    ensures Onward(old(sys.world), sys.world) && SwapFits(req, oat, sys.world.names, sys.world.log, fd.value)
  {
    if !req.usesSwap {
      fd := new UniqueFd(-1);
      return;
    }
    ghost var before := Unlinked(sys.world, SwapName(oat));
    var n := sys.OpenOutput(SwapName(oat), true);
    TriedIsOnward(before, sys.world, Opening(Path(SwapName(oat)), Create), n);
    fd := new UniqueFd(n);
    if n >= 0 {
      sys.Unlink(SwapName(oat));
    }
  }

  /** maybe_open_app_image: a failure is not an error, the compilation goes on without an image. */
  method MaybeOpenAppImage(sys: System, req: Request, oat: string) returns (w: Dex2oatFileWrapper)
    requires sys.Valid() && AbNames.ImageName(oat) != ""
    modifies sys
    ensures sys.Valid() && fresh(w) && w.autoClose && w.doCleanup && w.value >= -1
    ensures Held(w.value) !! old(sys.world.open) && sys.world.open == old(sys.world.open) + Held(w.value)
    ensures Held(w.value) !! sys.start && sys.world.profile == old(sys.world.profile)
    ensures w.cleanup in {Nothing, UnlinkPath(AbNames.ImageName(oat))}
    ensures w.value >= 0 ==>
              w.cleanup == UnlinkPath(AbNames.ImageName(oat)) && AbNames.ImageName(oat) in sys.world.outputs
    ensures w.value < 0 ==> sys.world.outputs <= old(sys.world.outputs)
    ensures old(sys.world.outputs) - {AbNames.ImageName(oat)} <= sys.world.outputs
    ensures sys.world.outputs <= old(sys.world.outputs) + {AbNames.ImageName(oat)}
    ensures Onward(old(sys.world), sys.world) && ImageFits(req, oat, sys.world.names, sys.world.log, w.value)
  {
    var image := AbNames.ImageName(oat);
    if req.secondary || image == "" {
      w := new Dex2oatFileWrapper.Empty();
      return;
    }
    sys.Unlink(image);
    if !req.generatesImage || req.imageFormat == "" {
      w := new Dex2oatFileWrapper.Empty();
      return;
    }
    w := OpenImage(sys, image);
  }

  /** The rest of maybe_open_app_image, once an image is wanted. */
  method OpenImage(sys: System, image: string) returns (w: Dex2oatFileWrapper)
    requires sys.Valid() && image !in sys.world.outputs
    modifies sys
    ensures sys.Valid() && fresh(w) && w.autoClose && w.doCleanup && w.value >= -1
    ensures Held(w.value) !! old(sys.world.open) && sys.world.open == old(sys.world.open) + Held(w.value)
    ensures Held(w.value) !! sys.start && sys.world.profile == old(sys.world.profile)
    ensures w.cleanup == UnlinkPath(image)
    ensures sys.world.outputs == old(sys.world.outputs) + (if w.value >= 0 then {image} else {})
    ensures Onward(old(sys.world), sys.world)
    ensures Optional(sys.world.names, sys.world.log, w.value, true, Opening(Path(image), Create), {SetOwner(image)})
  {
    ghost var before := Unlinked(sys.world, image);
    var fd := sys.OpenOutput(image, true);
    TriedIsOnward(before, sys.world, Opening(Path(image), Create), fd);
    w := new Dex2oatFileWrapper(fd, UnlinkPath(image));
    if w.value < 0 {
      sys.Unlink(image);
    } else {
      var permitted := sys.Ask(SetOwner(image));
      if permitted != 0 {
        assert sys.world.log[|sys.world.log| - 1] in sys.world.log;
        w.Reset(sys, -1);
      }
    }
  }

  /** maybe_open_reference_profile. */
  method MaybeOpenReferenceProfile(sys: System, req: Request) returns (w: Dex2oatFileWrapper)
    requires sys.Valid()
    modifies sys
    ensures sys.Valid() && fresh(w) && w.autoClose && w.doCleanup && w.value >= -1
    ensures Held(w.value) !! old(sys.world.open) && sys.world.open == old(sys.world.open) + Held(w.value)
    ensures Held(w.value) !! sys.start && sys.world.outputs == old(sys.world.outputs)
    ensures w.cleanup == if ProfileLocation(req).Some? then ClearProfile else Nothing
    ensures sys.world.profile == if ProfileLocation(req).Some? then InUse else old(sys.world.profile)
    ensures Onward(old(sys.world), sys.world) && ProfileFits(req, sys.world.names, sys.world.log, w.value)
  {
    if !req.profileGuided || req.systemServer {
      w := new Dex2oatFileWrapper.Empty();
      return;
    }
    if req.secondary && req.isPublic {
      w := new Dex2oatFileWrapper.Empty();
      return;
    }
    var location;
    if req.secondary {
      location := req.dexPath;
    } else if req.profileName.None? {
      w := new Dex2oatFileWrapper.Empty();
      return;
    } else {
      location := req.profileName.value;
    }
    ghost var before := sys.world;
    var fd := sys.OpenReferenceProfile(location);
    TriedIsOnward(before, sys.world.(profile := before.profile), Opening(ReferenceProfile(location), ReadOnly), fd);
    w := new Dex2oatFileWrapper(fd, ClearProfile);
  }

  /** What the two vdex wrappers hold between them: one descriptor each, or one that only the output closes. */
  ghost predicate VdexPair(inVdex: Dex2oatFileWrapper, outVdex: Dex2oatFileWrapper, vdex: string)
    reads inVdex, outVdex
  {
    && inVdex != outVdex
    && inVdex.value >= -1 && outVdex.value >= -1
    && inVdex.cleanup == Nothing && outVdex.cleanup in {Nothing, UnlinkPath(vdex)}
    && inVdex.doCleanup && outVdex.autoClose
    && (if inVdex.autoClose then Held(inVdex.value) !! Held(outVdex.value) else inVdex.value == outVdex.value)
  }

  /** The first half of open_vdex_files_for_dex2oat. */
  method OpenInVdex(sys: System, req: Request, oat: string, inVdex: Dex2oatFileWrapper)
    returns (named: bool, inPlace: bool)
    requires sys.Valid()
    requires inVdex.value == -1 && inVdex.cleanup == Nothing && inVdex.doCleanup && inVdex.autoClose
    modifies sys, inVdex`value
    ensures sys.Valid() && inVdex.value >= -1
    ensures var held := Held(inVdex.value);
            held !! old(sys.world.open) && held !! sys.start && sys.world.open == old(sys.world.open) + held
    ensures sys.world.outputs <= old(sys.world.outputs) + if inPlace then {AbNames.VdexName(oat)} else {}
    ensures old(sys.world.outputs) <= sys.world.outputs
    ensures inPlace ==> AbNames.VdexName(oat) in sys.world.outputs
    ensures sys.world.profile == old(sys.world.profile)
    ensures Onward(old(sys.world), sys.world) && named == !VdexNameless(req, oat)
    ensures inPlace == (named && UpdatesVdex(req, oat) && inVdex.value >= 0)
    ensures named ==> InVdexFits(req, oat, sys.world.names, sys.world.log, inVdex.value)
  {
    var action := if req.dexoptNeeded < 0 then -req.dexoptNeeded else req.dexoptNeeded;
    if AbNames.VdexName(oat) == "" {
      return false, false;
    }
    named, inPlace := true, false;
    if action != DEX2OAT_FROM_SCRATCH {
      var path := oat;
      if req.dexoptNeeded < 0 {
        if req.odexPath.None? {
          return false, false;
        }
        path := req.odexPath.value;
      }
      var input := AbNames.VdexName(path);
      if input == "" {
        return false, false;
      }
      inPlace := input == AbNames.VdexName(oat) && action == DEX2OAT_FOR_BOOT_IMAGE && !req.profileGuided;
      ghost var before := sys.world;
      var mode := if inPlace then ReadWrite else ReadOnly;
      var fd := sys.Open(Path(input), mode);
      TriedIsOnward(before, sys.world, Opening(Path(input), mode), fd);
      inVdex.Reset(sys, fd);
      if inPlace && inVdex.value == -1 {
        inPlace := false;
      }
    }
  }

  /** The second half: the input again where the file is updated in place, and otherwise a new file. */
  method OpenOutVdex(sys: System, oat: string, inVdex: Dex2oatFileWrapper, outVdex: Dex2oatFileWrapper, inPlace: bool)
    requires sys.Valid() && inVdex != outVdex && (inPlace ==> inVdex.value >= 0)
    requires inVdex.value >= -1 && inVdex.cleanup == Nothing && inVdex.doCleanup && inVdex.autoClose
    requires Held(inVdex.value) <= sys.world.open && Held(inVdex.value) !! sys.start
    requires outVdex.value == -1 && outVdex.cleanup == Nothing && outVdex.doCleanup && outVdex.autoClose
    modifies sys, inVdex`autoClose, outVdex`value, outVdex`cleanup
    ensures sys.Valid() && outVdex.value >= -1 && outVdex.cleanup == UnlinkPath(AbNames.VdexName(oat))
    ensures inVdex.autoClose == !inPlace && (inPlace ==> outVdex.value == inVdex.value)
    ensures inPlace ==> SameButEvents(sys.world, old(sys.world))
    ensures !inPlace ==> Held(outVdex.value) !! old(sys.world.open) && Held(outVdex.value) !! sys.start
    ensures sys.world.open == old(sys.world.open) + Held(outVdex.value)
    ensures sys.world.profile == old(sys.world.profile) && Onward(old(sys.world), sys.world)
    ensures !inPlace ==>
              var vdex := AbNames.VdexName(oat);
              && (outVdex.value >= 0 ==> Holding(sys.world.names, outVdex.value, Opening(Path(vdex), Create)))
              && sys.world.log == old(sys.world.log) + [Answered(OpenFile(Opening(Path(vdex), Create)), outVdex.value)]
              && sys.world.outputs == old(sys.world.outputs) - {vdex} + if outVdex.value >= 0 then {vdex} else {}
  {
    var vdex := AbNames.VdexName(oat);
    if inPlace {
      outVdex.ResetWith(sys, inVdex.value, UnlinkPath(vdex));
      inVdex.DisableAutoClose();
    } else {
      ghost var before := Unlinked(sys.world, vdex);
      var fd := sys.OpenOutput(vdex, true);
      TriedIsOnward(before, sys.world, Opening(Path(vdex), Create), fd);
      outVdex.ResetWith(sys, fd, UnlinkPath(vdex));
    }
  }

  /** Both halves. */
  method OpenVdexPair(sys: System, req: Request, oat: string, inVdex: Dex2oatFileWrapper, outVdex: Dex2oatFileWrapper)
    returns (ok: bool)
    requires sys.Valid() && inVdex != outVdex && req.oatPath == Some(oat)
    requires inVdex.value == -1 && inVdex.cleanup == Nothing && inVdex.doCleanup && inVdex.autoClose
    requires outVdex.value == -1 && outVdex.cleanup == Nothing && outVdex.doCleanup && outVdex.autoClose
    modifies sys, inVdex, outVdex
    ensures sys.Valid() && VdexPair(inVdex, outVdex, AbNames.VdexName(oat)) && outVdex.doCleanup
    ensures var held := Held(inVdex.value) + Held(outVdex.value);
            held !! old(sys.world.open) && held !! sys.start && sys.world.open == old(sys.world.open) + held
    ensures sys.world.profile == old(sys.world.profile) && Onward(old(sys.world), sys.world)
    ensures !inVdex.autoClose <==> !VdexNameless(req, oat) && UpdatesVdex(req, oat) && inVdex.value >= 0
    ensures outVdex.cleanup == Nothing ==> sys.world.outputs <= old(sys.world.outputs)
    ensures sys.world.outputs <= old(sys.world.outputs) + {AbNames.VdexName(oat)}
    ensures ok ==>
              && !VdexNameless(req, oat) && outVdex.value >= 0 && outVdex.cleanup == UnlinkPath(AbNames.VdexName(oat))
              && sys.world.outputs == old(sys.world.outputs) + {AbNames.VdexName(oat)}
              && VdexFits(req, oat, sys.world.names, sys.world.log, inVdex.value, outVdex.value)
    ensures !ok ==> VdexNameless(req, oat) || Stopped(req, sys.world.log)
  {
    var named, inPlace := OpenInVdex(sys, req, oat, inVdex);
    if !named {
      return false;
    }
    ghost var middle := sys.world;
    OpenOutVdex(sys, oat, inVdex, outVdex, inPlace);
    ok := outVdex.value >= 0;
    if ok {
      VdexOpened(middle, sys.world, req, oat, inVdex.value, outVdex.value);
    }
  }

  /** open_vdex_files_for_dex2oat. */
  method OpenVdexFiles(sys: System, req: Request, oat: string, inVdex: Dex2oatFileWrapper, outVdex: Dex2oatFileWrapper)
    returns (ok: bool)
    requires sys.Valid() && inVdex != outVdex && req.oatPath == Some(oat)
    requires inVdex.value == -1 && inVdex.cleanup == Nothing && inVdex.doCleanup && inVdex.autoClose
    requires outVdex.value == -1 && outVdex.cleanup == Nothing && outVdex.doCleanup && outVdex.autoClose
    modifies sys, inVdex, outVdex
    ensures sys.Valid() && VdexPair(inVdex, outVdex, AbNames.VdexName(oat)) && outVdex.doCleanup
    ensures var held := Held(inVdex.value) + Held(outVdex.value);
            held !! old(sys.world.open) && held !! sys.start && sys.world.open == old(sys.world.open) + held
    ensures sys.world.profile == old(sys.world.profile) && Onward(old(sys.world), sys.world)
    ensures !inVdex.autoClose <==> !VdexNameless(req, oat) && UpdatesVdex(req, oat) && inVdex.value >= 0
    ensures outVdex.cleanup == Nothing ==> sys.world.outputs <= old(sys.world.outputs)
    ensures sys.world.outputs <= old(sys.world.outputs) + {AbNames.VdexName(oat)}
    ensures ok ==>
              && outVdex.value >= 0 && outVdex.cleanup == UnlinkPath(AbNames.VdexName(oat))
              && sys.world.outputs == old(sys.world.outputs) + {AbNames.VdexName(oat)}
    ensures ok ==>
              && !Nameless(req) && Answered(SetOwner(AbNames.VdexName(oat)), 0) in sys.world.log
              && VdexFits(req, oat, sys.world.names, sys.world.log, inVdex.value, outVdex.value)
    ensures !ok ==> Nameless(req) || Stopped(req, sys.world.log)
  {
    ok := OpenVdexPair(sys, req, oat, inVdex, outVdex);
    if ok {
      ghost var both := sys.world;
      var permitted := sys.Ask(SetOwner(AbNames.VdexName(oat)));
      ok := permitted == 0;
      assert sys.world.log[|sys.world.log| - 1] in sys.world.log;
      VdexStays(both, sys.world, req, oat, inVdex.value, outVdex.value);
    }
  }

  lemma VdexOpened(a: World, b: World, req: Request, oat: string, input: int, output: int)
    requires Onward(a, b) && InVdexFits(req, oat, a.names, a.log, input)
    requires if UpdatesVdex(req, oat) && input >= 0 then output == input
             else Holding(b.names, output, Opening(Path(AbNames.VdexName(oat)), Create))
    ensures VdexFits(req, oat, b.names, b.log, input, output)
  {
    OptionalStays(a, b, input, ReadsVdex(req),
                  Opening(Path(AbNames.VdexName(VdexSource(req, oat))),
                          if UpdatesVdex(req, oat) then ReadWrite else ReadOnly), {});
  }

  /** The paths one compilation writes to are different. */
  lemma OutputsApart(oat: string)
    requires AbNames.VdexName(oat) != ""
    ensures var vdex, image, swap := AbNames.VdexName(oat), AbNames.ImageName(oat), SwapName(oat);
            oat != vdex && oat != image && oat != swap && vdex != image && vdex != swap && image != swap
  {
    var vdex, image, swap := AbNames.VdexName(oat), AbNames.ImageName(oat), SwapName(oat);
    assert |swap| == |oat| + 5 && |image| + 1 == |vdex| <= |oat| + 1;
    if EndsWith(oat, ".dex") {
      AbNames.MatchesDex(oat, |oat| - 4);
      assert image[|oat| - 3] == ".art"[1];
      assert |vdex| > |oat|;
    } else {
      var at := LastMatch(oat, ".odex").value;
      AbNames.MatchesOdex(oat, at);
      assert vdex[at + 1] == ".vdex"[1];
      assert |image| < |oat|;
    }
  }

  lemma ImageIsNamed(oat: string)
    requires AbNames.VdexName(oat) != ""
    ensures AbNames.ImageName(oat) != ""
  {
    OutputsApart(oat);
  }

  /** The profile's and the image's wrapper go. */
  method DestroyWrappers(sys: System, profile: Dex2oatFileWrapper, image: Dex2oatFileWrapper)
    requires sys.Valid() && profile != image && profile.autoClose && image.autoClose
    requires profile.doCleanup == image.doCleanup
    requires Held(profile.value) !! Held(image.value) !! sys.start
    requires Held(profile.value) + Held(image.value) <= sys.world.open
    requires !profile.cleanup.UnlinkPath? && image.cleanup != ClearProfile
    modifies sys`world, profile`value, image`value
    ensures sys.Valid()
    ensures sys.world.open == old(sys.world.open - (Held(profile.value) + Held(image.value)))
    ensures !profile.doCleanup ==>
              sys.world.outputs == old(sys.world.outputs) && sys.world.profile == old(sys.world.profile)
    ensures profile.doCleanup ==>
              && sys.world.outputs
                 == old(sys.world.outputs) - (if image.cleanup.UnlinkPath? then {image.cleanup.path} else {})
              && sys.world.profile == if profile.cleanup == ClearProfile then Cleared else old(sys.world.profile)
    ensures sys.world.given == old(sys.world.given) && sys.world.log == old(sys.world.log)
  {
    profile.Destroy(sys);
    image.Destroy(sys);
  }

  /** The four destructors, in the reverse order of construction. */
  method DestroyFour(sys: System, metadata: UniqueFd, profile: Dex2oatFileWrapper, image: Dex2oatFileWrapper,
                     swap: UniqueFd)
    requires sys.Valid() && metadata != swap && profile != image && profile.autoClose && image.autoClose
    requires profile.doCleanup == image.doCleanup
    requires Held(metadata.value) !! Held(profile.value) !! Held(image.value) !! Held(swap.value) !! sys.start
    requires Held(metadata.value) + Held(profile.value) + Held(image.value) + Held(swap.value) <= sys.world.open
    requires !profile.cleanup.UnlinkPath? && image.cleanup != ClearProfile
    modifies sys`world, metadata, swap, profile`value, image`value
    ensures sys.Valid()
    ensures sys.world.open == old(sys.world.open
              - (Held(metadata.value) + Held(profile.value) + Held(image.value) + Held(swap.value)))
    ensures !profile.doCleanup ==>
              sys.world.outputs == old(sys.world.outputs) && sys.world.profile == old(sys.world.profile)
    ensures profile.doCleanup ==>
              && sys.world.outputs
                 == old(sys.world.outputs) - (if image.cleanup.UnlinkPath? then {image.cleanup.path} else {})
              && sys.world.profile == if profile.cleanup == ClearProfile then Cleared else old(sys.world.profile)
    ensures sys.world.given == old(sys.world.given) && sys.world.log == old(sys.world.log)
  {
    metadata.Destroy(sys);
    DestroyWrappers(sys, profile, image);
    swap.Destroy(sys);
  }

  /** What opening a swap file and an image makes of the files written; the swap file is not among them. */
  ghost predicate Imaged(before: set<string>, after: set<string>, oat: string, image: int) {
    && before - {SwapName(oat), AbNames.ImageName(oat)} <= after <= before + {AbNames.ImageName(oat)}
    && if image >= 0 then AbNames.ImageName(oat) in after else after <= before
  }

  /** The required files fit and all that is required was granted. */
  ghost predicate AllFit(req: Request, w: World, oat: string, input: int, context: seq<int>, outOat: int, inVdex: int,
                         outVdex: int) {
    && req.oatPath == Some(oat) && !Nameless(req) && MainFits(req, oat, w.names, w.log, input, context, outOat)
    && VdexFits(req, oat, w.names, w.log, inVdex, outVdex) && Answered(SetOwner(AbNames.VdexName(oat)), 0) in w.log
    && (req.secondary ==> Answered(Restorecon, 0) in w.log)
  }

  ghost predicate OptionalFit(req: Request, w: World, oat: string, metadata: int, profile: int, image: int, swap: int) {
    && SwapFits(req, oat, w.names, w.log, swap) && ImageFits(req, oat, w.names, w.log, image)
    && ProfileFits(req, w.names, w.log, profile) && MetadataFits(req, w.names, w.log, metadata)
  }

  /** The optional files are open; the image and the profile will clean up, unless the result is a success. */
  ghost predicate Pending(sys: System, req: Request, oat: string, before: World, res: int, metadata: UniqueFd,
                          profile: Dex2oatFileWrapper, image: Dex2oatFileWrapper, swap: UniqueFd)
    reads sys, metadata, profile, image, swap
  {
    && metadata != swap && profile != image && profile.autoClose && image.autoClose
    && profile.doCleanup == image.doCleanup == (res != 0)
    && Held(metadata.value) !! Held(profile.value) !! Held(image.value) !! Held(swap.value) !! sys.start
    && (var held := Held(metadata.value) + Held(profile.value) + Held(image.value) + Held(swap.value);
        held !! before.open && sys.world.open == before.open + held)
    && profile.cleanup == (if ProfileLocation(req).Some? then ClearProfile else Nothing)
    && sys.world.profile == (if ProfileLocation(req).Some? then InUse else Untouched)
    && (image.cleanup == Nothing || image.cleanup == UnlinkPath(AbNames.ImageName(oat)))
    && Imaged(before.outputs, sys.world.outputs, oat, image.value)
    && (image.cleanup == Nothing ==> sys.world.outputs <= before.outputs)
  }

  /** The swap file, the image, the reference profile and the dex metadata. */
  method OpenFour(sys: System, req: Request, oat: string)
    returns (metadata: UniqueFd, profile: Dex2oatFileWrapper, image: Dex2oatFileWrapper, swap: UniqueFd)
    requires sys.Valid() && sys.world.profile == Untouched && AbNames.ImageName(oat) != ""
    modifies sys
    ensures sys.Valid() && fresh(metadata) && fresh(profile) && fresh(image) && fresh(swap)
    ensures Pending(sys, req, oat, old(sys.world), -1, metadata, profile, image, swap)
    ensures Onward(old(sys.world), sys.world)
    ensures OptionalFit(req, sys.world, oat, metadata.value, profile.value, image.value, swap.value)
  {
    image, swap := OpenSwapAndImage(sys, req, oat);
    ghost var b := sys.world;
    profile := MaybeOpenReferenceProfile(sys, req);
    ghost var c := sys.world;
    metadata := OpenMetadata(sys, req);
    AllStay(b, c, sys.world, req, oat, swap.value, image.value, profile.value);
  }

  /** The two that are outputs. */
  method OpenSwapAndImage(sys: System, req: Request, oat: string) returns (image: Dex2oatFileWrapper, swap: UniqueFd)
    requires sys.Valid() && AbNames.ImageName(oat) != ""
    modifies sys
    ensures sys.Valid() && fresh(image) && fresh(swap) && image.autoClose && image.doCleanup
    ensures var held := Held(image.value) + Held(swap.value);
            sys.world.open == old(sys.world.open) + held && held !! old(sys.world.open)
    ensures Held(image.value) !! Held(swap.value) !! sys.start && sys.world.profile == old(sys.world.profile)
    ensures image.cleanup == Nothing || image.cleanup == UnlinkPath(AbNames.ImageName(oat))
    ensures Imaged(old(sys.world.outputs), sys.world.outputs, oat, image.value)
    ensures image.cleanup == Nothing ==> sys.world.outputs <= old(sys.world.outputs)
    ensures Onward(old(sys.world), sys.world)
    ensures SwapFits(req, oat, sys.world.names, sys.world.log, swap.value)
    ensures ImageFits(req, oat, sys.world.names, sys.world.log, image.value)
  {
    swap := MaybeOpenSwapFile(sys, req, oat);
    ghost var before := sys.world;
    image := MaybeOpenAppImage(sys, req, oat);
    OptionalStays(before, sys.world, swap.value, req.usesSwap, Opening(Path(SwapName(oat)), Create), {});
  }

  /** The dex metadata, if there is a path to it. */
  method OpenMetadata(sys: System, req: Request) returns (w: UniqueFd)
    requires sys.Valid()
    modifies sys
    ensures sys.Valid() && fresh(w) && w.value >= -1
    ensures Held(w.value) !! old(sys.world.open) && sys.world.open == old(sys.world.open) + Held(w.value)
    ensures Held(w.value) !! sys.start && sys.world.outputs == old(sys.world.outputs)
    ensures sys.world.profile == old(sys.world.profile) && Onward(old(sys.world), sys.world)
    ensures MetadataFits(req, sys.world.names, sys.world.log, w.value)
  {
    var fd := -1;
    if req.metadata.Some? {
      ghost var before := sys.world;
      fd := sys.Open(Path(req.metadata.value), ReadOnly);
      TriedIsOnward(before, sys.world, Opening(Path(req.metadata.value), ReadOnly), fd);
    }
    w := new UniqueFd(fd);
  }

  lemma AllStay(a: World, b: World, c: World, req: Request, oat: string, swap: int, image: int, profile: int)
    requires Onward(a, b) && Onward(b, c) && ProfileFits(req, b.names, b.log, profile)
    requires SwapFits(req, oat, a.names, a.log, swap) && ImageFits(req, oat, a.names, a.log, image)
    ensures SwapFits(req, oat, c.names, c.log, swap) && ImageFits(req, oat, c.names, c.log, image)
    ensures ProfileFits(req, c.names, c.log, profile)
  {
    OnwardTwice(a, b, c);
    OptionalStays(a, c, swap, req.usesSwap, Opening(Path(SwapName(oat)), Create), {});
    var path := AbNames.ImageName(oat);
    OptionalStays(a, c, image, WantsImage(req), Opening(Path(path), Create), {SetOwner(path)});
    var location := ProfileLocation(req);
    OptionalStays(b, c, profile, location.Some?,
                  Opening(ReferenceProfile(if location.Some? then location.value else ""), ReadOnly), {});
  }

  /** What was right when dex2oat was started is so when it has answered. */
  lemma RanRight(a: World, b: World, w: World, req: Request, oat: string, g: Given)
    requires Onward(a, b) && g.names == b.names && AllFit(req, a, oat, g.input, g.context, g.oat, g.inVdex, g.outVdex)
    requires OptionalFit(req, b, oat, g.metadata, g.profile, g.image, g.swap)
    requires w.log == b.log + [Answered(Dex2oat, g.result)]
    ensures GivenFits(req, g, w.log)
  {
    var after := b.(log := w.log);
    assert Onward(b, after);
    OnwardTwice(a, b, after);
    MainStays(a, after, req, oat, g.input, g.context, g.oat);
    VdexStays(a, after, req, oat, g.inVdex, g.outVdex);
    assert forall x <- a.log :: x in after.log;
    AllStay(b, after, after, req, oat, g.swap, g.image, g.profile);
    OptionalStays(b, after, g.metadata, req.metadata.Some?,
                  Opening(Path(if req.metadata.Some? then req.metadata.value else ""), ReadOnly), {});
  }

  /** Everything is ready for dex2oat but the files it can do without. */
  ghost predicate Ready(sys: System, req: Request, inputFd: int, context: seq<int>, oat: string, outOat: int)
    reads sys
  {
    && sys.Valid() && sys.world.given.None? && sys.world.profile == Untouched
    && MainFits(req, oat, sys.world.names, sys.world.log, inputFd, context, outOat)
    && req.oatPath == Some(oat)
  }

  /** The run of dex2oat itself, and what is kept after it. */
  method Execute(sys: System, req: Request, ghost before: World, inputFd: int, context: seq<int>, oat: string,
                 outOat: Dex2oatFileWrapper, inVdex: Dex2oatFileWrapper, outVdex: Dex2oatFileWrapper,
                 metadata: UniqueFd, profile: Dex2oatFileWrapper, image: Dex2oatFileWrapper, swap: UniqueFd)
    returns (res: int)
    requires sys.Valid() && Onward(before, sys.world)
    requires AllFit(req, before, oat, inputFd, context, outOat.value, inVdex.value, outVdex.value)
    requires OptionalFit(req, sys.world, oat, metadata.value, profile.value, image.value, swap.value)
    modifies sys`world, outOat`doCleanup, outVdex`doCleanup, image`doCleanup, profile`doCleanup
    ensures sys.Valid() && sys.world.given.Some?
    ensures sys.world == old(sys.world).(given := sys.world.given, log := old(sys.world.log) + [Answered(Dex2oat, res)])
    ensures GivenFits(req, sys.world.given.value, sys.world.log) && res == sys.world.given.value.result
    ensures sys.world.given.value.image == image.value
    ensures outOat.doCleanup == (res != 0 && old(outOat.doCleanup))
    ensures outVdex.doCleanup == (res != 0 && old(outVdex.doCleanup))
    ensures image.doCleanup == (res != 0 && old(image.doCleanup))
    ensures profile.doCleanup == (res != 0 && old(profile.doCleanup))
  {
    ghost var all := sys.world;
    res := sys.RunDex2oat(inputFd, context, outOat.value, inVdex.value, outVdex.value, image.value, swap.value,
                          profile.value, metadata.value);
    RanRight(before, all, sys.world, req, oat, sys.world.given.value);
    if res == 0 {
      outOat.SetCleanup(false);
      outVdex.SetCleanup(false);
      image.SetCleanup(false);
      profile.SetCleanup(false);
    }
  }

  /** From the swap file to the end of the compilation. */
  method Compile(sys: System, req: Request, inputFd: int, context: seq<int>, oat: string, outOat: Dex2oatFileWrapper,
                 inVdex: Dex2oatFileWrapper, outVdex: Dex2oatFileWrapper)
    returns (res: int)
    requires sys.Valid() && sys.world.given.None? && sys.world.profile == Untouched && outOat != outVdex
    requires AllFit(req, sys.world, oat, inputFd, context, outOat.value, inVdex.value, outVdex.value)
    modifies sys, outOat`doCleanup, outVdex`doCleanup
    ensures sys.Valid() && sys.world.open == old(sys.world.open)
    ensures Went(req, sys.world.given, sys.world.log, sys.world.profile, res) && sys.world.given.Some?
    ensures outOat.doCleanup == (res != 0 && old(outOat.doCleanup))
    ensures outVdex.doCleanup == (res != 0 && old(outVdex.doCleanup))
    ensures if res != 0 then sys.world.outputs <= old(sys.world.outputs)
            else Imaged(old(sys.world.outputs), sys.world.outputs, oat, sys.world.given.value.image)
  {
    ghost var before := sys.world;
    ImageIsNamed(oat);
    var metadata, profile, image, swap := OpenFour(sys, req, oat);
    res := ExecuteAndSettle(sys, req, before, inputFd, context, oat, outOat, inVdex, outVdex, metadata, profile, image,
                            swap);
  }

  /** The rest of that scope, once everything is open. */
  method ExecuteAndSettle(sys: System, req: Request, ghost before: World, inputFd: int, context: seq<int>, oat: string,
                          outOat: Dex2oatFileWrapper, inVdex: Dex2oatFileWrapper, outVdex: Dex2oatFileWrapper,
                          metadata: UniqueFd, profile: Dex2oatFileWrapper, image: Dex2oatFileWrapper, swap: UniqueFd)
    returns (res: int)
    requires sys.Valid() && Onward(before, sys.world) && outOat != outVdex && {outOat, outVdex} !! {profile, image}
    requires AllFit(req, before, oat, inputFd, context, outOat.value, inVdex.value, outVdex.value)
    requires OptionalFit(req, sys.world, oat, metadata.value, profile.value, image.value, swap.value)
    requires Pending(sys, req, oat, before, -1, metadata, profile, image, swap)
    modifies sys`world, outOat`doCleanup, outVdex`doCleanup, metadata, profile, image, swap
    ensures sys.Valid() && sys.world.open == before.open
    ensures Went(req, sys.world.given, sys.world.log, sys.world.profile, res) && sys.world.given.Some?
    ensures outOat.doCleanup == (res != 0 && old(outOat.doCleanup))
    ensures outVdex.doCleanup == (res != 0 && old(outVdex.doCleanup))
    ensures if res != 0 then sys.world.outputs <= before.outputs
            else Imaged(before.outputs, sys.world.outputs, oat, sys.world.given.value.image)
  {
    res := Execute(sys, req, before, inputFd, context, oat, outOat, inVdex, outVdex, metadata, profile, image, swap);
    Settle(sys, req, oat, before, res, metadata, profile, image, swap);
  }

  /** The end of that scope. */
  method Settle(sys: System, ghost req: Request, ghost oat: string, ghost before: World, ghost res: int,
                metadata: UniqueFd, profile: Dex2oatFileWrapper, image: Dex2oatFileWrapper, swap: UniqueFd)
    requires sys.Valid() && Pending(sys, req, oat, before, res, metadata, profile, image, swap)
    modifies sys`world, metadata, swap, profile`value, image`value
    ensures sys.Valid() && sys.world.open == before.open
    ensures sys.world.given == old(sys.world.given) && sys.world.log == old(sys.world.log)
    ensures sys.world.profile == ProfileAfter(req, res)
    ensures if res != 0 then sys.world.outputs <= before.outputs
            else Imaged(before.outputs, sys.world.outputs, oat, old(image.value))
  {
    DestroyFour(sys, metadata, profile, image, swap);
  }

  /** The contexts of a secondary dex file's artifacts are restored first. */
  method CompileRestored(sys: System, req: Request, inputFd: int, context: seq<int>, oat: string,
                         outOat: Dex2oatFileWrapper, inVdex: Dex2oatFileWrapper, outVdex: Dex2oatFileWrapper)
    returns (res: int)
    requires outOat != outVdex && Ready(sys, req, inputFd, context, oat, outOat.value) && !Nameless(req)
    requires VdexFits(req, oat, sys.world.names, sys.world.log, inVdex.value, outVdex.value)
    requires Answered(SetOwner(AbNames.VdexName(oat)), 0) in sys.world.log
    modifies sys, outOat`doCleanup, outVdex`doCleanup
    ensures sys.Valid() && sys.world.open == old(sys.world.open)
    ensures Went(req, sys.world.given, sys.world.log, sys.world.profile, res)
    ensures outOat.doCleanup == (res != 0 && old(outOat.doCleanup))
    ensures outVdex.doCleanup == (res != 0 && old(outVdex.doCleanup))
    ensures if res != 0 then sys.world.outputs <= old(sys.world.outputs)
            else Imaged(old(sys.world.outputs), sys.world.outputs, oat, sys.world.given.value.image)
  {
    var restored := 0;
    if req.secondary {
      ghost var before := sys.world;
      restored := sys.Ask(Restorecon);
      assert sys.world.log[|sys.world.log| - 1] in sys.world.log;
      VdexStays(before, sys.world, req, oat, inVdex.value, outVdex.value);
      MainStays(before, sys.world, req, oat, inputFd, context, outOat.value);
    }
    if restored != 0 {
      res := -1;
    } else {
      res := Compile(sys, req, inputFd, context, oat, outOat, inVdex, outVdex);
    }
  }

  /** The scope of the two vdex wrappers. */
  method CompileWithVdex(sys: System, req: Request, inputFd: int, context: seq<int>, oat: string,
                         outOat: Dex2oatFileWrapper)
    returns (res: int)
    requires Ready(sys, req, inputFd, context, oat, outOat.value)
    modifies sys, outOat`doCleanup
    ensures sys.Valid() && sys.world.open == old(sys.world.open)
    ensures Went(req, sys.world.given, sys.world.log, sys.world.profile, res)
    ensures outOat.doCleanup == (res != 0 && old(outOat.doCleanup))
    ensures if res != 0 then sys.world.outputs <= old(sys.world.outputs)
            else
              && AbNames.VdexName(oat) != ""
              && Imaged(old(sys.world.outputs) + {AbNames.VdexName(oat)}, sys.world.outputs, oat,
                        sys.world.given.value.image)
  {
    var inVdex := new Dex2oatFileWrapper.Empty();
    var outVdex := new Dex2oatFileWrapper.Empty();
    res := OpenVdexAndCompile(sys, req, inputFd, context, oat, outOat, inVdex, outVdex);
    DestroyVdex(sys, AbNames.VdexName(oat), inVdex, outVdex);
  }

  /** What happens in that scope. */
  method OpenVdexAndCompile(sys: System, req: Request, inputFd: int, context: seq<int>, oat: string,
                            outOat: Dex2oatFileWrapper, inVdex: Dex2oatFileWrapper, outVdex: Dex2oatFileWrapper)
    returns (res: int)
    requires inVdex != outVdex && outOat !in {inVdex, outVdex} && Ready(sys, req, inputFd, context, oat, outOat.value)
    requires inVdex.value == -1 && inVdex.cleanup == Nothing && inVdex.doCleanup && inVdex.autoClose
    requires outVdex.value == -1 && outVdex.cleanup == Nothing && outVdex.doCleanup && outVdex.autoClose
    modifies sys, outOat`doCleanup, inVdex, outVdex
    ensures sys.Valid() && VdexPair(inVdex, outVdex, AbNames.VdexName(oat))
    ensures var held := Held(inVdex.value) + Held(outVdex.value);
            held !! old(sys.world.open) && held !! sys.start && sys.world.open == old(sys.world.open) + held
    ensures Went(req, sys.world.given, sys.world.log, sys.world.profile, res)
    ensures outOat.doCleanup == (res != 0 && old(outOat.doCleanup)) && outVdex.doCleanup == (res != 0)
    ensures res != 0 ==>
              && sys.world.outputs <= old(sys.world.outputs) + {AbNames.VdexName(oat)}
              && (outVdex.cleanup == Nothing ==> sys.world.outputs <= old(sys.world.outputs))
    ensures res == 0 ==>
              && AbNames.VdexName(oat) != ""
              && Imaged(old(sys.world.outputs) + {AbNames.VdexName(oat)}, sys.world.outputs, oat,
                        sys.world.given.value.image)
  {
    ghost var before := sys.world;
    var ready := OpenVdexFiles(sys, req, oat, inVdex, outVdex);
    if !ready {
      res := -1;
    } else {
      OutputsApart(oat);
      MainStays(before, sys.world, req, oat, inputFd, context, outOat.value);
      res := CompileRestored(sys, req, inputFd, context, oat, outOat, inVdex, outVdex);
    }
  }

  /** The two vdex wrappers go. */
  method DestroyVdex(sys: System, ghost vdex: string, inVdex: Dex2oatFileWrapper, outVdex: Dex2oatFileWrapper)
    requires sys.Valid() && VdexPair(inVdex, outVdex, vdex)
    requires var held := Held(inVdex.value) + Held(outVdex.value); held <= sys.world.open && held !! sys.start
    modifies sys`world, inVdex`value, outVdex`value
    ensures sys.Valid()
    ensures sys.world.open == old(sys.world.open - (Held(inVdex.value) + Held(outVdex.value)))
    ensures sys.world.outputs == old(sys.world.outputs)
              - (if outVdex.doCleanup && outVdex.cleanup.UnlinkPath? then {vdex} else {})
    ensures sys.world.profile == old(sys.world.profile)
    ensures sys.world.given == old(sys.world.given) && sys.world.log == old(sys.world.log)
  {
    outVdex.Destroy(sys);
    inVdex.Destroy(sys);
  }

  /** The input file and the class loader context are open. */
  ghost predicate InputsOpen(sys: System, req: Request, inputFd: int, context: seq<int>)
    reads sys
  {
    && sys.Valid() && sys.world.given.None? && sys.world.profile == Untouched
    && Holding(sys.world.names, inputFd, Opening(Path(req.dexPath), ReadOnly))
    && HoldsAll(sys.world.names, context, req.contextPaths)
  }

  /** The scope of the oat wrapper. */
  method CompileWithOat(sys: System, req: Request, inputFd: int, context: seq<int>) returns (res: int)
    requires InputsOpen(sys, req, inputFd, context)
    modifies sys
    ensures sys.Valid() && sys.world.open == old(sys.world.open)
    ensures Went(req, sys.world.given, sys.world.log, sys.world.profile, res)
    ensures res != 0 ==> sys.world.outputs <= old(sys.world.outputs)
    ensures res == 0 ==> Wrote(req, old(sys.world), sys.world)
  {
    ghost var before := sys.world;
    var outOat := OpenOatOutFile(sys, req);
    if outOat.value < 0 {
      res := -1;
    } else {
      res := CompileWithVdex(sys, req, inputFd, context, req.oatPath.value, outOat);
      if res == 0 {
        OutputsApart(req.oatPath.value);
        WroteAll(req, before, sys.world);
      }
    }
    outOat.Destroy(sys);
  }

  lemma WroteAll(req: Request, before: World, after: World)
    requires req.oatPath.Some? && after.given.Some? && AbNames.VdexName(req.oatPath.value) != ""
    requires var oat := req.oatPath.value;
             Imaged(before.outputs + {oat} + {AbNames.VdexName(oat)}, after.outputs, oat, after.given.value.image)
    ensures Wrote(req, before, after)
  {
    OutputsApart(req.oatPath.value);
  }

  /** Written and not unlinked: the oat and the vdex file, and the image if and only if dex2oat was given one. */
  ghost predicate Wrote(req: Request, before: World, after: World) {
    req.oatPath.Some? && after.given.Some? &&
    var oat, image := req.oatPath.value, after.given.value.image;
    && AbNames.VdexName(oat) != "" && {oat, AbNames.VdexName(oat)} <= after.outputs
    && after.outputs <= before.outputs + {oat, AbNames.VdexName(oat), AbNames.ImageName(oat)}
    && (image >= 0 ==> AbNames.ImageName(oat) in after.outputs)
    && (image < 0 ==> after.outputs <= before.outputs + {oat, AbNames.VdexName(oat)})
  }

  /** The scope of the class loader context files. */
  method CompileWithContext(sys: System, req: Request, inputFd: int) returns (res: int)
    requires sys.Valid() && sys.world.given.None? && sys.world.profile == Untouched
    requires Holding(sys.world.names, inputFd, Opening(Path(req.dexPath), ReadOnly))
    modifies sys
    ensures sys.Valid() && sys.world.open == old(sys.world.open)
    ensures Went(req, sys.world.given, sys.world.log, sys.world.profile, res)
    ensures res != 0 ==> sys.world.outputs <= old(sys.world.outputs)
    ensures res == 0 ==> Wrote(req, old(sys.world), sys.world)
  {
    ghost var before := sys.world;
    var ready, fds := OpenContext(sys, req);
    if ready {
      res := CompileWithOat(sys, req, inputFd, fds);
    } else {
      res := -1;
    }
    CloseAll(sys, before.open, fds);
  }

  /** open_dex_paths, which stops at the first file that cannot be opened. */
  method OpenContext(sys: System, req: Request) returns (ready: bool, fds: seq<int>)
    requires sys.Valid()
    modifies sys
    ensures sys.Valid() && HeldAlso(old(sys.world.open), fds, sys.world.open, sys.start)
    ensures sys.world.outputs == old(sys.world.outputs) && sys.world.profile == old(sys.world.profile)
    ensures Onward(old(sys.world), sys.world)
    ensures ready ==> HoldsAll(sys.world.names, fds, req.contextPaths)
    ensures !ready ==> Stopped(req, sys.world.log)
  {
    fds, ready := [], true;
    var i := 0;
    while i < |req.contextPaths| && ready
      invariant 0 <= i <= |req.contextPaths|
      invariant sys.Valid() && HeldAlso(old(sys.world.open), fds, sys.world.open, sys.start)
      invariant sys.world.outputs == old(sys.world.outputs) && sys.world.profile == old(sys.world.profile)
      invariant Onward(old(sys.world), sys.world)
      invariant ready ==> HoldsAll(sys.world.names, fds, req.contextPaths[..i])
      invariant !ready ==> Stopped(req, sys.world.log)
    {
      ghost var before := sys.world;
      var opening := Opening(Path(req.contextPaths[i]), ReadOnly);
      var fd := sys.Open(opening.file, opening.mode);
      TriedIsOnward(before, sys.world, opening, fd);
      if fd < 0 {
        ready := false;
        assert req.contextPaths[i] in req.contextPaths;
      } else {
        HeldMore(old(sys.world.open), fds, before.open, sys.start, fd);
        fds := fds + [fd];
      }
      i := i + 1;
    }
    assert req.contextPaths[..|req.contextPaths|] == req.contextPaths;
  }

  lemma HeldMore(base: set<int>, fds: seq<int>, open: set<int>, start: set<int>, fd: int)
    requires HeldAlso(base, fds, open, start) && fd !in open && fd !in start
    ensures HeldAlso(base, fds + [fd], open + {fd}, start)
  {
  }

  /** The destructors of the context files. */
  method CloseAll(sys: System, ghost base: set<int>, context: seq<int>)
    requires sys.Valid() && HeldAlso(base, context, sys.world.open, sys.start)
    modifies sys`world
    ensures sys.Valid() && sys.world.open == base && sys.world.outputs == old(sys.world.outputs)
    ensures sys.world.profile == old(sys.world.profile) && sys.world.given == old(sys.world.given)
    ensures sys.world.log == old(sys.world.log)
  {
    var fds := context;
    while fds != []
      invariant sys.Valid() && HeldAlso(base, fds, sys.world.open, sys.start)
      invariant sys.world.outputs == old(sys.world.outputs) && sys.world.profile == old(sys.world.profile)
      invariant sys.world.given == old(sys.world.given) && sys.world.log == old(sys.world.log)
      decreases |fds|
    {
      sys.Close(fds[0]);
      fds := fds[1..];
    }
    assert (set fd <- fds) == {};
  }

  /** The open descriptors are those of `base` and the distinct new ones of `fds`. */
  ghost predicate HeldAlso(base: set<int>, fds: seq<int>, open: set<int>, start: set<int>) {
    && (forall i, j | 0 <= i < j < |fds| :: fds[i] != fds[j])
    && (forall fd <- fds :: fd !in base && fd !in start)
    && open == base + set fd <- fds
  }

  /** The files that stay: none after a failure; otherwise oat and vdex file, and the image that dex2oat was given. */
  ghost predicate Kept(req: Request, w: World, res: int) {
    if res != 0 then w.outputs == {}
    else
      req.oatPath.Some? && w.given.Some? &&
      var oat := req.oatPath.value;
      w.outputs
      == {oat, AbNames.VdexName(oat)} + if w.given.value.image >= 0 then {AbNames.ImageName(oat)} else {}
  }

  /**
    A call that compiles runs dex2oat on the right files and returns its result,
    or says what kept it from that; it leaves open what was open before, having
    closed each descriptor it opened, and of the files it opened for writing
    those of a successful compilation and no others.
  */
  method Dexopt(sys: System, req: Request) returns (res: int)
    requires sys.Valid() && sys.world == World(sys.start, [], map[], [], {}, Untouched, None)
    modifies sys
    ensures sys.Valid() && sys.world.open == sys.start
    ensures req.preparation != Proceed ==>
              res == (if req.preparation == NothingToDo then 0 else -1) && sys.world == old(sys.world)
    ensures req.preparation == Proceed ==>
              Went(req, sys.world.given, sys.world.log, sys.world.profile, res) && Kept(req, sys.world, res)
  {
    match req.preparation {
      case Refused => return -1;
      case NothingToDo => return 0;
      case Proceed =>
    }
    res := CompileInput(sys, req);
  }

  /** The scope of the input file. */
  method CompileInput(sys: System, req: Request) returns (res: int)
    requires sys.Valid() && sys.world == World(sys.start, [], map[], [], {}, Untouched, None)
    modifies sys
    ensures sys.Valid() && sys.world.open == sys.start
    ensures Went(req, sys.world.given, sys.world.log, sys.world.profile, res) && Kept(req, sys.world, res)
  {
    ghost var before := sys.world;
    var inputFd := sys.Open(Path(req.dexPath), ReadOnly);
    TriedIsOnward(before, sys.world, Opening(Path(req.dexPath), ReadOnly), inputFd);
    var input := new UniqueFd(inputFd);
    if input.value < 0 {
      res := -1;
    } else {
      res := CompileWithContext(sys, req, input.value);
      if res == 0 {
        OutputsApart(req.oatPath.value);
      }
    }
    input.Destroy(sys);
  }

  /**
    A call that compiles runs dex2oat if and only if no name is missing and
    nothing that is required was refused last; when the system grants every
    request, only a name can be missing, dex2oat gets every file that is wanted,
    and the call succeeds.
  */
  lemma GrantedCallCompiles(answer: nat -> int, req: Request, given: Option<Given>, log: seq<Answered>,
                            profile: ProfileUse, res: int)
    requires Went(req, given, log, profile, res) && Honest(answer, log)
    ensures given.Some? <==> !Nameless(req) && !Stopped(req, log)
    ensures (forall n: nat | n < |log| && IsRequired(req, log[n].question) :: answer(n) == 0) ==>
              (given.Some? <==> !Nameless(req))
    ensures !Nameless(req) && (forall n: nat | n < |log| :: answer(n) == 0) ==>
              && given.Some? && res == 0 && given.value.outVdex >= 0
              && (given.value.inVdex >= 0 <==> ReadsVdex(req)) && (given.value.swap >= 0 <==> req.usesSwap)
              && (given.value.image >= 0 <==> WantsImage(req)) && (given.value.metadata >= 0 <==> req.metadata.Some?)
              && (given.value.profile >= 0 <==> ProfileLocation(req).Some?)
  {
    assert forall n: nat | n < |log| :: Faithful(log[n], answer(n));
    assert (forall n: nat | n < |log| :: answer(n) == 0) ==> forall n: nat | n < |log| :: !Failed(log[n]);
  }

  /** The history of a valid system whose descriptors are back where they started. */
  lemma EveryDescriptorIsClosedOnce(start: set<int>, w: World, i: nat)
    requires Orderly(start, w) && w.open == start && i < |w.events| && w.events[i].Opened?
    ensures var next := FirstOf(w.events[i + 1..], w.events[i].fd);
            next.Some? && w.events[i + 1 + next.value] == Closed(w.events[i].fd)
  {
    ClosedExactlyOnce(start, w.events, i);
  }
}
