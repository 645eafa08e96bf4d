/**
 A venue session (lib/labgrid_venue.py) holds two mutexes: the bench lease through the module-level lock
 of lib/hardware_lock.py, then a labgrid place. The coordinator is a table with one entry; a client call
 may fail to reach it, or take effect without its answer coming back.
 */
module Venue {
  import opened Prelude
  import opened PyText
  import opened HolderLine
  import opened BenchLease
  import opened BenchLock

  /** The fallback hardware lock: the global `_held_lock`. */
  class HardwareLock {
    const file: LockFile
    const claim: Claim
    const reclaimStale: bool
    var held: BenchWindow?

    ghost predicate Valid()
      reads this, file, held
    {
      file.Valid() && claim.pid >= 0 && (held != null ==> held.file == file && held.Valid())
    }

    predicate Owns()
      reads this, held
    {
      held != null && held.handle.Some?
    }

    constructor (file: LockFile, claim: Claim, reclaimStale: bool)
      requires file.Valid() && claim.pid >= 0
      ensures Valid() && this.file == file && held == null
    {
      this.file, this.claim, this.reclaimStale, held := file, claim, reclaimStale, null;
    }

    /** acquire_hardware_lock: a lock object already remembered is taken for a held lock. */
    method Acquire(phase: string, now: string) returns (verdict: Verdict)
      requires Valid() && IsWord(now)
      modifies this, file
      ensures Valid()
      ensures old(held) != null ==> verdict == Entered && unchanged(this) && unchanged(file)
      ensures old(held) == null ==> verdict == Judge(old(file.contents), old(file.locked) != {}, reclaimStale)
      ensures old(held) == null && verdict.Entered? ==>
                Owns() && fresh(held) && file.locked != {} && held.Stamped() == claim.(purpose := phase, since := now)
                && file.contents == Text(claim.(purpose := phase, since := now))
      ensures verdict.Entered? ==> (Owns() <==> old(held) == null || old(Owns()))
      ensures !verdict.Entered? ==> held == null && file.contents == old(file.contents) && file.locked == old(file.locked)
    {
      if held != null { return Entered; }
      var lock := new BenchWindow(file, claim.(purpose := phase), reclaimStale);
      verdict := lock.Acquire(true, None, now);
      if verdict.Entered? { held := lock; }
    }

    /** release_hardware_lock: an I/O error still drops the flock, but the object stays remembered. */
    method Release(fault: Fault) returns (raised: bool)
      requires Valid()
      modifies this, file, held
      ensures Valid() && !Owns()
      ensures raised <==> old(Owns()) && !fault.NoFault?
      ensures held == if raised then old(held) else null
      ensures old(Owns()) ==> file.locked == {} && file.contents == if fault.BeforeClearing? then old(file.contents) else ""
      ensures !old(Owns()) ==> unchanged(file)
    {
      raised := false;
      if held == null { return; }
      raised := held.Release(fault);
      if !raised { held := null; }
    }

    /** After a release that raised, the next acquire reports success, and nobody has the flock. */
    method AcquireAfterFailedRelease(phase: string, now: string, fault: Fault) returns (verdict: Verdict)
      requires Valid() && Owns() && IsWord(now) && !fault.NoFault?
      modifies this, file, held
      ensures Valid() && verdict.Entered? && held == old(held) && !Owns() && file.locked == {}
    {
      var raised := Release(fault);
      verdict := Acquire(phase, now);
    }
  }

  /** What becomes of one client call: whether it reaches the coordinator, and whether its success is reported. */
  datatype Fate = Fate(reaches: bool, answered: bool)

  /** How the client call of an acquire ends: answered one way or the other, or by an error of another class. */
  datatype Call = Plain(fate: Fate) | Interrupted(reaches: bool) {
    predicate Reaches() { if Plain? then fate.reaches else reaches }

    predicate Succeeds(place: Option<string>) { Plain? && fate.reaches && fate.answered && place.None? }
  }

  /** The coordinator's entry for one place; one moment is recorded after every effect. */
  class Coordinator {
    var place: Option<string>

    constructor ()
      ensures place == None
    {
      place := None;
    }

    method AcquirePlace(user: string, fate: Fate) returns (ok: bool)
      modifies this
      ensures place == if fate.reaches && old(place).None? then Some(user) else old(place)
      ensures ok <==> fate.reaches && fate.answered && old(place).None?
    {
      var granted := fate.reaches && place.None?;
      if granted { place := Some(user); }
      ok := granted && fate.answered;
    }

    /** A user may release whatever the same user holds. */
    method ReleasePlace(user: string, fate: Fate) returns (ok: bool)
      modifies this
      ensures place == if fate.reaches && old(place) == Some(user) then None else old(place)
      ensures ok <==> fate.reaches && fate.answered && old(place) == Some(user)
    {
      var freed := fate.reaches && place == Some(user);
      if freed { place := None; }
      ok := freed && fate.answered;
    }
  }

  class LabgridBench {
    const coordinator: Coordinator
    const user: string
    var acquired: bool

    constructor (coordinator: Coordinator, user: string)
      ensures this.coordinator == coordinator && this.user == user && !acquired
    {
      this.coordinator, this.user, acquired := coordinator, user, false;
    }

    /**
     acquire: a failed call is undone as far as a release can reach, so after a failure the place is this
     user's only if that release was lost, and a place the same user already held is given up with it. A call
     that ends in an error of another class is not undone at all.
     */
    method Acquire(call: Call, undo: Fate) returns (ok: bool)
      modifies this, coordinator
      ensures ok <==> call.Succeeds(old(coordinator.place))
      ensures acquired == (ok || old(acquired))
      ensures ok ==> coordinator.place == Some(user)
      ensures !ok && call.Plain? && undo.reaches ==>
                coordinator.place == if old(coordinator.place) == Some(user) then None else old(coordinator.place)
      ensures !ok && (call.Interrupted? || !undo.reaches) ==>
                coordinator.place == if call.Reaches() && old(coordinator.place).None? then Some(user) else old(coordinator.place)
    {
      ok := coordinator.AcquirePlace(user, if call.Plain? then call.fate else Fate(call.reaches, false));
      if call.Interrupted? { return; }
      if !ok {
        var undone := coordinator.ReleasePlace(user, undo);
        return;
      }
      acquired := true;
    }

    method Release(fate: Fate) returns (raised: bool)
      modifies this, coordinator
      ensures !acquired
      ensures raised <==> old(acquired) && !(fate.reaches && fate.answered && old(coordinator.place) == Some(user))
      ensures coordinator.place == if old(acquired) && fate.reaches && old(coordinator.place) == Some(user) then None else old(coordinator.place)
    {
      raised := false;
      if !acquired { return; }
      var ok := coordinator.ReleasePlace(user, fate);
      acquired := false;
      raised := !ok;
    }
  }

  /** How a session ends; the last error raised is the one the caller sees. */
  datatype Exit = BenchRefused(verdict: Verdict) | PlaceInterrupted | PlaceRefused | BodyReturned | BodyRaised | PlaceReleaseFailed | BenchReleaseFailed

  /** Who has what, at one instant of a session. */
  datatype Moment = Moment(placeMine: bool, flockMine: bool)

  /** What the coordinator, the disk and the body do during one session. */
  datatype World = World(grant: Call, undo: Fate, release: Fate, fault: Fault, bodyRaises: bool) {
    predicate Grants(place: Option<string>) { grant.Succeeds(place) }

    /** The call that gives the place up is made and reaches the coordinator. */
    predicate GivesUp(place: Option<string>) { if Grants(place) then release.reaches else grant.Plain? && undo.reaches }

    /** The place comes into this user's hand, if only until the session ends. */
    predicate Takes(place: Option<string>) {
      grant.Reaches() && place.None? && (grant.Plain? ==> grant.fate.answered || !undo.reaches)
    }

    /** Whose the place is afterwards. */
    function PlaceAfter(place: Option<string>, user: string): Option<string> {
      if GivesUp(place) && ((grant.Reaches() && place.None?) || place == Some(user)) then None
      else if grant.Reaches() && place.None? then Some(user) else place
    }

    /** How the part under the place ends. */
    function Outcome(place: Option<string>): Exit {
      if grant.Interrupted? then PlaceInterrupted
      else if !Grants(place) then PlaceRefused
      else if !release.reaches || !release.answered then PlaceReleaseFailed
      else if bodyRaises then BodyRaised
      else BodyReturned
    }
  }

  /** The place is this user's only while the flock is this process's, at the last moment if the place was given up. */
  ghost predicate Disciplined(trail: seq<Moment>, gaveUp: bool) {
    forall i :: 0 <= i < |trail| && trail[i].placeMine && (i < |trail| - 1 || gaveUp) ==> trail[i].flockMine
  }

  function Now(hardware: HardwareLock, bench: LabgridBench): Moment
    reads hardware, hardware.held, bench.coordinator
  {
    Moment(bench.coordinator.place == Some(bench.user), hardware.Owns())
  }

  /** The part of a session inside the bench lease: place, body, place release. */
  method PlaceSession(hardware: HardwareLock, bench: LabgridBench, world: World) returns (exit: Exit, ghost trail: seq<Moment>)
    requires !bench.acquired
    modifies bench, bench.coordinator
    ensures !bench.acquired
    ensures exit == world.Outcome(old(bench.coordinator.place))
    ensures world.Grants(old(bench.coordinator.place)) ==> |trail| == 2 && trail[0].placeMine
    ensures |trail| > 0 && trail[|trail| - 1] == Now(hardware, bench)
    ensures forall m :: m in trail ==> m.flockMine == hardware.Owns()
    ensures old(bench.coordinator.place) != Some(bench.user) ==> trail[0].placeMine == world.Takes(old(bench.coordinator.place))
    ensures !world.Takes(old(bench.coordinator.place)) ==> |trail| == 1
    ensures bench.coordinator.place == world.PlaceAfter(old(bench.coordinator.place), bench.user)
  {
    var ok := bench.Acquire(world.grant, world.undo);
    trail := [Now(hardware, bench)];
    if !ok { return if world.grant.Interrupted? then PlaceInterrupted else PlaceRefused, trail; }
    exit := if world.bodyRaises then BodyRaised else BodyReturned;
    var lost := bench.Release(world.release);
    trail := trail + [Now(hardware, bench)];
    if lost { exit := PlaceReleaseFailed; }
  }

  /** The session once the lock object is remembered: the place inside, then the release of the lease. */
  method InsideBench(hardware: HardwareLock, bench: LabgridBench, world: World) returns (exit: Exit, ghost trail: seq<Moment>)
    requires hardware.Valid() && hardware.held != null && !bench.acquired
    modifies hardware, hardware.file, hardware.held, bench, bench.coordinator
    ensures hardware.Valid() && !bench.acquired && !hardware.Owns()
    ensures exit == if !world.fault.NoFault? && old(hardware.Owns()) then BenchReleaseFailed else world.Outcome(old(bench.coordinator.place))
    ensures |trail| > 0 && (world.Grants(old(bench.coordinator.place)) ==> |trail| == 3 && trail[0].placeMine)
    ensures forall i :: 0 <= i < |trail| - 1 ==> trail[i].flockMine == old(hardware.Owns())
    ensures |trail| > 1
    ensures old(bench.coordinator.place) != Some(bench.user) ==> trail[0].placeMine == world.Takes(old(bench.coordinator.place))
    ensures !world.Takes(old(bench.coordinator.place)) ==> |trail| == 2
    ensures world.GivesUp(old(bench.coordinator.place)) ==> !trail[|trail| - 1].placeMine
    ensures old(hardware.Owns()) ==> hardware.file.locked == {}
    ensures old(hardware.Owns()) ==> hardware.file.contents == if world.fault.BeforeClearing? then old(hardware.file.contents) else ""
    ensures hardware.held == null <==> !exit.BenchReleaseFailed?
    ensures bench.coordinator.place == world.PlaceAfter(old(bench.coordinator.place), bench.user)
  {
    ghost var part;
    exit, part := PlaceSession(hardware, bench, world);
    var failed := hardware.Release(world.fault);
    trail := part + [Now(hardware, bench)];
    if failed { exit := BenchReleaseFailed; }
  }

  /** venue_mutex with file_lock: the bench lease around the place. */
  method BenchSession(hardware: HardwareLock, bench: LabgridBench, phase: string, now: string, world: World)
    returns (exit: Exit, ghost trail: seq<Moment>)
    requires hardware.Valid() && IsWord(now) && !bench.acquired
    modifies hardware, hardware.file, hardware.held, bench, bench.coordinator
    ensures hardware.Valid() && !bench.acquired && !hardware.Owns()
    ensures exit.BenchRefused? || exit == (if !world.fault.NoFault? && (old(hardware.held) == null || old(hardware.Owns()))
                                           then BenchReleaseFailed else world.Outcome(old(bench.coordinator.place)))
    ensures !exit.BenchRefused? && world.Grants(old(bench.coordinator.place)) ==> |trail| == 4 && trail[1].placeMine
    ensures exit.BenchRefused? ==> old(hardware.held) == null && !exit.verdict.Entered?
    ensures exit.BenchRefused? <==>
              (old(hardware.held) == null
               && !Judge(old(hardware.file.contents), old(hardware.file.locked) != {}, hardware.reclaimStale).Entered?)
    ensures exit.BenchRefused? ==> exit.verdict == Judge(old(hardware.file.contents), old(hardware.file.locked) != {}, hardware.reclaimStale)
    ensures exit.BenchRefused? ==> bench.coordinator.place == old(bench.coordinator.place) && hardware.file.locked == old(hardware.file.locked)
    ensures old(hardware.held) == null && old(hardware.file.locked) != {} ==> exit == BenchRefused(RefusedBusy)
    ensures !exit.BenchRefused? && old(bench.coordinator.place) != Some(bench.user) ==>
              (Disciplined(trail, world.GivesUp(old(bench.coordinator.place))) <==>
                 old(hardware.held) == null || old(hardware.Owns()) || !world.Takes(old(bench.coordinator.place)))
    ensures exit.BenchRefused? && old(bench.coordinator.place) != Some(bench.user) ==>
              Disciplined(trail, world.GivesUp(old(bench.coordinator.place)))
    ensures (old(hardware.held) == null || old(hardware.Owns())) && !exit.BenchRefused? ==> hardware.file.locked == {}
    ensures !exit.BenchRefused? && old(hardware.held) == null ==>
              hardware.file.contents == if world.fault.BeforeClearing? then Text(hardware.claim.(purpose := phase, since := now)) else ""
    ensures !exit.BenchRefused? && old(hardware.Owns()) ==>
              hardware.file.contents == if world.fault.BeforeClearing? then old(hardware.file.contents) else ""
    ensures !exit.BenchRefused? ==> (hardware.held == null <==> !exit.BenchReleaseFailed?)
    ensures !exit.BenchRefused? ==> bench.coordinator.place == world.PlaceAfter(old(bench.coordinator.place), bench.user)
  {
    var verdict := hardware.Acquire(phase, now);
    ghost var first := Now(hardware, bench);
    trail := [first];
    if !verdict.Entered? { return BenchRefused(verdict), trail; }
    ghost var rest;
    exit, rest := InsideBench(hardware, bench, world);
    trail := [first] + rest;
    if old(bench.coordinator.place) != Some(bench.user) {
      TrailDiscipline(first, rest, old(hardware.held) == null || old(hardware.Owns()), world.Takes(old(bench.coordinator.place)),
                      world.GivesUp(old(bench.coordinator.place)));
    }
  }

  /** What the moments of a session come to: the one at which the place is taken decides. */
  lemma TrailDiscipline(first: Moment, rest: seq<Moment>, flock: bool, takes: bool, gaveUp: bool)
    requires |rest| > 1 && !first.placeMine && rest[0].placeMine == takes && (!takes ==> |rest| == 2)
    requires forall i :: 0 <= i < |rest| - 1 ==> rest[i].flockMine == flock
    requires gaveUp ==> !rest[|rest| - 1].placeMine
    ensures Disciplined([first] + rest, gaveUp) <==> flock || !takes
  {
    var trail := [first] + rest;
    assert trail[1] == rest[0] && trail[|trail| - 1] == rest[|rest| - 1];
  }

  /**
   venue_mutex. With file_lock, every moment at which the place is this user's is a moment at which this
   process owns the flock, exactly if it remembered no lock object on entry, or remembered one that still had
   the flock, or the place never came into its hand. On every exit the flock is dropped, and the place too if
   the call that gives it up takes effect. A lease already held on entry is released all the same when
   file_lock is true, and left alone when it is false.
   */
  method VenueMutex(hardware: HardwareLock, bench: LabgridBench, phase: string, fileLock: bool, now: string, world: World)
    returns (exit: Exit, ghost trail: seq<Moment>)
    requires hardware.Valid() && IsWord(now) && !bench.acquired
    modifies hardware, hardware.file, hardware.held, bench, bench.coordinator
    ensures hardware.Valid() && !bench.acquired
    // refused at the bench: exactly when the bench's verdict says so, and nothing moved
    ensures exit.BenchRefused? <==>
              (fileLock && old(hardware.held) == null
               && !Judge(old(hardware.file.contents), old(hardware.file.locked) != {}, hardware.reclaimStale).Entered?)
    ensures exit.BenchRefused? ==> exit.verdict == Judge(old(hardware.file.contents), old(hardware.file.locked) != {}, hardware.reclaimStale)
    ensures exit.BenchRefused? ==> bench.coordinator.place == old(bench.coordinator.place) && hardware.file.locked == old(hardware.file.locked)
    // otherwise the last error raised: of the bench's release, of the place's acquire or release, of the body; or none
    ensures exit.BenchReleaseFailed? <==>
              (!exit.BenchRefused? && fileLock && !world.fault.NoFault? && (old(hardware.held) == null || old(hardware.Owns())))
    ensures exit.PlaceInterrupted? <==> (!exit.BenchRefused? && !exit.BenchReleaseFailed? && world.grant.Interrupted?)
    ensures exit.PlaceRefused? <==>
              (!exit.BenchRefused? && !exit.BenchReleaseFailed? && world.grant.Plain?
               && !(world.grant.fate.reaches && world.grant.fate.answered && old(bench.coordinator.place).None?))
    ensures exit.PlaceReleaseFailed? <==>
              (!exit.BenchRefused? && !exit.BenchReleaseFailed? && world.grant.Plain?
               && world.grant.fate.reaches && world.grant.fate.answered && old(bench.coordinator.place).None?
               && !(world.release.reaches && world.release.answered))
    ensures exit.BodyRaised? || exit.BodyReturned? <==>
              (!exit.BenchRefused? && !exit.BenchReleaseFailed? && world.grant.Plain?
               && world.grant.fate.reaches && world.grant.fate.answered && old(bench.coordinator.place).None?
               && world.release.reaches && world.release.answered)
    ensures exit.BodyRaised? ==> world.bodyRaises
    ensures exit.BodyReturned? ==> !world.bodyRaises
    // the body runs with the place in hand
    ensures !exit.BenchRefused? && world.Grants(old(bench.coordinator.place)) ==> exists m :: m in trail && m.placeMine
    // the discipline
    ensures fileLock && !exit.BenchRefused? && old(bench.coordinator.place) != Some(bench.user) ==>
              (Disciplined(trail, world.GivesUp(old(bench.coordinator.place))) <==>
                 old(hardware.held) == null || old(hardware.Owns()) || !world.Takes(old(bench.coordinator.place)))
    ensures exit.BenchRefused? && old(bench.coordinator.place) != Some(bench.user) ==>
              Disciplined(trail, world.GivesUp(old(bench.coordinator.place)))
    // every exit drops the flock, one held on entry included
    ensures fileLock ==> !hardware.Owns()
    ensures fileLock && (old(hardware.held) == null || old(hardware.Owns())) && !exit.BenchRefused? ==> hardware.file.locked == {}
    ensures !fileLock ==> hardware.Owns() == old(hardware.Owns()) && unchanged(hardware.file)
    // an error before the clearing leaves this session's line, or the remembered one's; else the file is empty; and an error keeps the object
    ensures fileLock && !exit.BenchRefused? && old(hardware.held) == null ==>
              hardware.file.contents == if world.fault.BeforeClearing? then Text(hardware.claim.(purpose := phase, since := now)) else ""
    ensures fileLock && !exit.BenchRefused? && old(hardware.Owns()) ==>
              hardware.file.contents == if world.fault.BeforeClearing? then old(hardware.file.contents) else ""
    ensures fileLock && !exit.BenchRefused? ==> (hardware.held == null <==> !exit.BenchReleaseFailed?)
    // the place: a call that arrived and found it free has it, until the release, or the undo of a failed call, arrives
    ensures !exit.BenchRefused? ==>
              var place := old(bench.coordinator.place);
              var taken := (if world.grant.Plain? then world.grant.fate.reaches else world.grant.reaches) && place.None?;
              var freed := if taken && world.grant.Plain? && world.grant.fate.answered then world.release.reaches
                           else world.grant.Plain? && world.undo.reaches;
              bench.coordinator.place == if freed && (taken || place == Some(bench.user)) then None
                                         else if taken then Some(bench.user) else place
  {
    if fileLock {
      exit, trail := BenchSession(hardware, bench, phase, now, world);
    } else {
      exit, trail := PlaceSession(hardware, bench, world);
    }
  }
}
