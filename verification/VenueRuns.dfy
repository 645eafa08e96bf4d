/**
 What every run of VenueProtocol keeps: when the flock stands behind a place, who excludes whom, what breaks
 that and how, and that nobody waits in a circle.
 */
module VenueRuns {
  import opened Prelude
  import opened HolderLine
  import opened VenueProtocol
  import Lease = BenchLease

  // ---- the discipline, over every run ----------------------------------------------------------------

  /** Between the hardware lock's acquire and its release. */
  predicate Inside(p: Phase) { !p.Asking? && !p.Releasing? }

  /** The window behind the session's hardware lock is held, and it alone. */
  predicate HasFlock(s: State, id: Id) {
    id in s.sessions && Lease.IsHeld(s.lease, s.sessions[id].fd) && s.lease.locked == {s.sessions[id].fd}
  }

  /** The flock stands behind a session exactly until a release of its window begins; nobody can begin one for a session that is alone. */
  lemma FlockExactly(s: State, id: Id)
    requires BenchInv(s) && UsesLock(s.sessions, id) && Inside(s.sessions[id].phase)
    ensures HasFlock(s, id) <==> s.sessions[id].fd !in s.letGo
    ensures Alone(s, id) ==> HasFlock(s, id)
  {
    var w := s.sessions[id].fd;
    assert SessionOk(s, id);
    if w in s.letGo { assert Past(s.lease, w); } else { Lease.HeldOwns(s.lease, w); }
  }

  /** With a remembered lock object a session starts at once, and with the flock exactly if that object still holds its window. */
  lemma BorrowsFlock(s: State, step: Step)
    requires Inv(s) && step.Start? && !step.kind.PlaceOnly? && SoundStep(step) && step.claim.pid in s.remembered
    ensures var t := Apply(s, step);
            && s.next in t.sessions && t.sessions[s.next].phase.Ready? && t.lease == s.lease
            && (HasFlock(t, s.next) <==> Lease.IsHeld(s.lease, s.remembered[step.claim.pid]))
  {
    if Lease.IsHeld(s.lease, s.remembered[step.claim.pid]) { Lease.HeldOwns(s.lease, s.remembered[step.claim.pid]); }
  }

  /** The steps that leave a place without anybody to give it up: a death, an interruption, a lost release, a late grant. */
  predicate Loses(step: Step) {
    step.Crash? || step.Interrupt? || step.GrantLate? || (step.Undo? && !step.reaches) || (step.Free? && !step.reaches)
  }

  lemma NotLost(s: State, step: Step)
    requires PlaceInv(s) && !Loses(step)
    ensures Apply(s, step).astray == s.astray
  {
    if (step.Undo? || step.Free?) && step.id in s.sessions { OwnPlace(s, step.id); }
  }

  lemma {:induction false} NothingAstray(s: State, steps: seq<Step>)
    requires PlaceInv(s) && forall i :: 0 <= i < |steps| ==> !Loses(steps[i])
    ensures Run(s, steps).astray == s.astray
    decreases |steps|
  {
    if steps != [] {
      NotLost(s, steps[0]);
      StepKeepsPlaces(s, steps[0]);
      NothingAstray(Apply(s, steps[0]), steps[1..]);
    }
  }

  /** A place whose holder is not astray: the holder is there, and in a full session the flock is behind it as above. */
  ghost predicate Disciplined(s: State, p: string)
    requires p in s.places
  {
    var id := s.places[p].holder;
    && id in s.sessions && s.sessions[id].place == p
    && (s.sessions[id].kind.Full? ==>
          && (HasFlock(s, id) <==> s.sessions[id].fd !in s.letGo)
          && (Alone(s, id) ==> HasFlock(s, id)))
  }

  lemma PlaceDisciplined(s: State, p: string)
    requires Inv(s) && p in s.places && s.places[p].holder !in s.astray
    ensures Disciplined(s, p)
  {
    var id := s.places[p].holder;
    assert PlaceOk(s, p, s.places[p]);
    if s.sessions[id].kind.Full? { FlockExactly(s, id); }
  }

  /**
   In every state of every run, whatever legacy participants, foreign users and other sessions do: a place in a
   full session's name has the flock behind it exactly until a release of the session's window begins, and for
   certain if the session is alone on its process's hardware lock, unless the session is astray; and nobody goes
   astray but by a death, an interruption, a lost release or a late grant.
   */
  lemma {:induction false} VenueDiscipline(contents: string, steps: seq<Step>)
    requires SoundSteps(steps)
    ensures var s := Run(Initial(contents), steps);
            && (forall p {:trigger Disciplined(s, p)} :: p in s.places && s.places[p].holder !in s.astray ==> Disciplined(s, p))
            && ((forall i :: 0 <= i < |steps| ==> !Loses(steps[i])) ==> s.astray == {})
  {
    var s := Run(Initial(contents), steps);
    Reachable(contents, steps);
    InitialOk(contents);
    if forall i :: 0 <= i < |steps| ==> !Loses(steps[i]) { NothingAstray(Initial(contents), steps); }
    forall p | p in s.places && s.places[p].holder !in s.astray ensures Disciplined(s, p) { PlaceDisciplined(s, p); }
  }

  /**
   While the flock is behind a session, no legacy window is held, and every other session inside has lost its
   own, or goes by the same window in the same process; the latter not, if the session is alone.
   */
  lemma {:induction false} VenueExcludes(contents: string, steps: seq<Step>, id: Id)
    requires SoundSteps(steps)
    ensures var s := Run(Initial(contents), steps);
            UsesLock(s.sessions, id) && Inside(s.sessions[id].phase) && s.sessions[id].fd !in s.letGo ==>
              && (forall fd: Lease.Fd :: Lease.IsHeld(s.lease, fd) ==> fd == s.sessions[id].fd)
              && (forall other: Id :: UsesLock(s.sessions, other) && Inside(s.sessions[other].phase) && other != id ==>
                    || s.sessions[other].fd in s.letGo
                    || (!Alone(s, id) && s.sessions[other].fd == s.sessions[id].fd && s.sessions[other].pid == s.sessions[id].pid))
  {
    var s := Run(Initial(contents), steps);
    Reachable(contents, steps);
    if UsesLock(s.sessions, id) && Inside(s.sessions[id].phase) && s.sessions[id].fd !in s.letGo {
      FlockExactly(s, id);
      Lease.HeldOwns(s.lease, s.sessions[id].fd);
      assert SessionOk(s, id);
      forall other: Id | UsesLock(s.sessions, other) && Inside(s.sessions[other].phase) && other != id && s.sessions[other].fd !in s.letGo
        ensures !Alone(s, id) && s.sessions[other].fd == s.sessions[id].fd && s.sessions[other].pid == s.sessions[id].pid
      {
        FlockExactly(s, other);
        assert SessionOk(s, other);
      }
    }
  }

  // ---- runs in which each process goes by its hardware lock in good order ------------------------------

  /** One session at a time on the process's hardware lock, and none that leaves it remembered. */
  predicate Orderly(s: State, step: Step) {
    && !step.Botch? && !step.Interrupt? && (step.Finish? ==> !step.fault)
    && (step.Start? && !step.kind.PlaceOnly? ==> OnLock(s, step.claim.pid) == {})
  }

  ghost predicate OrderlyRun(s: State, steps: seq<Step>)
    decreases |steps|
  {
    steps == [] || (Orderly(s, steps[0]) && OrderlyRun(Apply(s, steps[0]), steps[1..]))
  }

  ghost predicate Tidied(s: State, id: Id) {
    id in s.sessions ==> !s.sessions[id].borrowed && (s.sessions[id].phase.Releasing? ==> !s.sessions[id].phase.raised)
  }

  /** Whatever a process remembers, one of its sessions is there to have it released. */
  ghost predicate Attended(s: State, pid: int) {
    pid in s.remembered ==> exists id :: id in OnLock(s, pid) && !s.sessions[id].phase.Asking?
  }

  ghost predicate Tidy(s: State) {
    s.shared == {} && (forall id {:trigger Tidied(s, id)} :: Tidied(s, id)) && (forall pid {:trigger Attended(s, pid)} :: Attended(s, pid))
  }

  /** One session moved on or left in good order, and its process remembers nothing that nobody attends to. */
  ghost predicate TidyMove(s: State, t: State, id: Id) {
    && id in s.sessions && t.shared == s.shared && NoNews(s, t)
    && (if id in t.sessions
        then t.sessions == s.sessions[id := s.sessions[id].(phase := t.sessions[id].phase)]
             && (t.sessions[id].phase.Asking? ==> s.sessions[id].phase.Asking?) && (t.sessions[id].phase.Releasing? ==> !t.sessions[id].phase.raised)
        else t.sessions == s.sessions - {id}
             && (s.sessions[id].kind.PlaceOnly? || s.sessions[id].phase.Asking? || s.sessions[id].pid !in t.remembered))
  }

  lemma TidyMoveKeeps(s: State, t: State, id: Id)
    requires Tidy(s) && TidyMove(s, t, id)
    ensures Tidy(t)
  {
    forall i | i in t.sessions ensures Tidied(t, i) { assert Tidied(s, i); }
    forall pid | pid in t.remembered ensures Attended(t, pid) {
      assert Attended(s, pid);
      var i :| i in OnLock(s, pid) && !s.sessions[i].phase.Asking?;
      assert i in OnLock(t, pid);
    }
  }

  lemma TidyClient(s: State, step: Step)
    requires (step.Call? || step.Decide? || step.Answer? || step.EndBody? || step.Undo? || step.Free?) && step.id in s.sessions
    ensures Apply(s, step) == s || TidyMove(s, Apply(s, step), step.id)
  {
    if step.Undo? || step.Free? { GiveUpSteps(s, step); } else { CallStepSteps(s, step); }
  }

  lemma TidyLetGo(s: State, id: Id)
    requires id in s.sessions && s.sessions[id].phase.Leaving? && !s.sessions[id].kind.PlaceOnly?
    ensures BeginLetGo(s, id) == s || TidyMove(s, BeginLetGo(s, id), id)
  {
  }

  lemma TidyFinish(s: State, id: Id)
    requires id in s.sessions && Tidied(s, id)
    ensures Finished(s, id, false) == s || TidyMove(s, Finished(s, id, false), id)
  {
  }

  lemma TidyEnter(s: State, id: Id)
    requires Tidy(s) && id in s.sessions && (s.sessions[id].phase.Asking? ==> !s.sessions[id].kind.PlaceOnly?)
    ensures Tidy(Apply(s, Enter(id)))
  {
    var t, x := Apply(s, Enter(id)), s.sessions[id];
    if t != s {
      forall i | i in t.sessions ensures Tidied(t, i) { assert Tidied(s, i); }
      forall pid | pid in t.remembered ensures Attended(t, pid) {
        if pid == x.pid {
          assert id in OnLock(t, pid);
        } else {
          assert Attended(s, pid);
          var i :| i in OnLock(s, pid) && !s.sessions[i].phase.Asking?;
          assert i in OnLock(t, pid);
        }
      }
    }
  }

  lemma TidyJoin(s: State, t: State, x: Session)
    requires Tidy(s) && Joined(s, t, x) && s.next !in s.sessions && !x.borrowed && !x.phase.Releasing?
    requires x.kind.PlaceOnly? || OnLock(s, x.pid) == {}
    ensures Tidy(t)
  {
    forall i | i in t.sessions ensures Tidied(t, i) { assert Tidied(s, i); }
    forall pid | pid in t.remembered ensures Attended(t, pid) {
      assert Attended(s, pid);
      var i :| i in OnLock(s, pid) && !s.sessions[i].phase.Asking?;
      assert i in OnLock(t, pid);
    }
  }

  lemma TidyStart(s: State, step: Step)
    requires BenchInv(s) && Tidy(s) && step.Start? && Orderly(s, step)
    ensures Tidy(Apply(s, step))
  {
    assert Attended(s, step.claim.pid) && SessionOk(s, s.next);
    StartJoins(s, step);
    TidyJoin(s, Apply(s, step), Apply(s, step).sessions[s.next]);
  }

  lemma TidyCrash(s: State, pid: int)
    requires Tidy(s)
    ensures Tidy(Apply(s, Crash(pid)))
  {
    var t := Apply(s, Crash(pid));
    forall i | i in t.sessions ensures Tidied(t, i) { assert Tidied(s, i); }
    forall other | other in t.remembered ensures Attended(t, other) {
      assert Attended(s, other);
      var i :| i in OnLock(s, other) && !s.sessions[i].phase.Asking?;
      assert i in OnLock(t, other);
    }
  }

  lemma TidyElsewhere(s: State, t: State)
    requires Tidy(s) && t.sessions == s.sessions && t.remembered == s.remembered && t.shared == s.shared
    ensures Tidy(t)
  {
    forall i | i in t.sessions ensures Tidied(t, i) { assert Tidied(s, i); }
    forall pid | pid in t.remembered ensures Attended(t, pid) {
      assert Attended(s, pid);
      var i :| i in OnLock(s, pid) && !s.sessions[i].phase.Asking?;
      assert i in OnLock(t, pid);
    }
  }

  lemma TidyAct(s: State, step: Step)
    requires BenchInv(s) && Tidy(s) && Orderly(s, step)
    requires !step.Bench? && !step.Start? && !step.Crash? && !step.GrantLate? && step.id in s.sessions
    ensures Tidy(Apply(s, step))
  {
    var x := s.sessions[step.id];
    assert SessionOk(s, step.id) && Tidied(s, step.id);
    if step.Enter? {
      TidyEnter(s, step.id);
    } else {
      if step.LetGo? { if x.phase.Leaving? && !x.kind.PlaceOnly? { TidyLetGo(s, step.id); } }
      else if step.Finish? { TidyFinish(s, step.id); }
      else { TidyClient(s, step); }
      if Apply(s, step) != s { TidyMoveKeeps(s, Apply(s, step), step.id); }
    }
  }

  lemma TidyStep(s: State, step: Step)
    requires BenchInv(s) && Tidy(s) && Orderly(s, step)
    ensures Tidy(Apply(s, step))
  {
    if step.Bench? || step.GrantLate? { TidyElsewhere(s, Apply(s, step)); }
    else if step.Start? { TidyStart(s, step); }
    else if step.Crash? { TidyCrash(s, step.pid); }
    else if step.id in s.sessions { TidyAct(s, step); }
  }

  lemma {:induction false} TidyRun(s: State, steps: seq<Step>)
    requires Inv(s) && Tidy(s) && SoundSteps(steps) && OrderlyRun(s, steps)
    ensures Tidy(Run(s, steps))
    decreases |steps|
  {
    if steps != [] {
      StepKeeps(s, steps[0]);
      TidyStep(s, steps[0]);
      TidyRun(Apply(s, steps[0]), steps[1..]);
    }
  }

  /**
   When no process overlaps two sessions on its hardware lock, none of their releases raises and none is
   interrupted, the discipline is unconditional: whatever else happens, a full session's place has the flock
   behind it at every moment, unless the session is astray.
   */
  lemma {:induction false} OrderlyDiscipline(contents: string, steps: seq<Step>)
    requires SoundSteps(steps) && OrderlyRun(Initial(contents), steps)
    ensures var s := Run(Initial(contents), steps);
            forall p :: p in s.places && s.places[p].holder !in s.astray && s.places[p].holder in s.sessions && s.sessions[s.places[p].holder].kind.Full? ==>
              HasFlock(s, s.places[p].holder)
  {
    var s := Run(Initial(contents), steps);
    InitialOk(contents);
    Reachable(contents, steps);
    TidyRun(Initial(contents), steps);
    forall p | p in s.places && s.places[p].holder !in s.astray && s.places[p].holder in s.sessions && s.sessions[s.places[p].holder].kind.Full?
      ensures HasFlock(s, s.places[p].holder)
    {
      PlaceDisciplined(s, p);
      assert Tidied(s, s.places[p].holder);
    }
  }

  // ---- what the discipline does not survive --------------------------------------------------------------

  /** A death: the bench is free at once, the place stays with nobody to release it. */
  lemma CrashStrandsPlace(s: State, id: Id)
    requires Inv(s) && HasPlace(s, id) && s.sessions[id].kind.Full? && MayHave(s.sessions[id].phase) && s.sessions[id].fd !in s.letGo
    ensures var t := Apply(s, Crash(s.sessions[id].pid));
            var p := s.sessions[id].place;
            t.lease.locked == {} && p in t.places && t.places[p].holder == id && id !in t.sessions && id in t.astray
  {
    FlockExactly(s, id);
    assert SessionOk(s, id);
    Lease.CrashUnlocks(s.lease, s.sessions[id].fd);
  }

  /** An interruption after the grant: the session goes on to leave, and its place stays with nobody to release it. */
  lemma InterruptStrandsPlace(s: State, id: Id)
    requires Inv(s) && HasPlace(s, id) && s.sessions[id].phase.Calling?
    ensures var t := Apply(s, Interrupt(id));
            HasPlace(t, id) && t.sessions[id].phase.Leaving? && id in t.astray && t.lease == s.lease
  {
    OwnPlace(s, id);
  }

  // ---- runs put together ---------------------------------------------------------------------------------

  function BenchSteps(steps: seq<Lease.Step>): (r: seq<Step>)
    ensures |r| == |steps| && forall i :: 0 <= i < |r| ==> r[i] == Bench(steps[i])
  {
    seq(|steps|, i requires 0 <= i < |steps| => Bench(steps[i]))
  }

  lemma {:induction false} BenchRun(s: State, steps: seq<Lease.Step>)
    requires forall i :: 0 <= i < |steps| ==> !Lease.LetsGo(steps[i])
    ensures Run(s, BenchSteps(steps)) == s.(lease := Lease.Run(s.lease, steps))
    decreases |steps|
  {
    if steps != [] {
      assert BenchSteps(steps)[0] == Bench(steps[0]) && BenchSteps(steps)[1..] == BenchSteps(steps[1..]);
      BenchRun(Apply(s, Bench(steps[0])), steps[1..]);
    }
  }

  lemma {:induction false} RunFirst(s: State, step: Step, rest: seq<Step>)
    ensures Run(s, [step] + rest) == Run(Apply(s, step), rest)
  {
    assert ([step] + rest)[1..] == rest;
  }

  lemma {:induction false} RunAppend(s: State, a: seq<Step>, b: seq<Step>)
    ensures Run(s, a + b) == Run(Run(s, a), b)
    decreases |a|
  {
    if a == [] {
      assert a + b == b;
    } else {
      assert (a + b)[1..] == a[1..] + b;
      RunAppend(Apply(s, a[0]), a[1..], b);
    }
  }

  lemma {:induction false} RunThree(s: State, a: Step, b: Step, c: Step)
    ensures Run(s, [a, b, c]) == Apply(Apply(Apply(s, a), b), c)
  {
    assert [a, b, c] == [a] + ([b] + ([c] + []));
    RunFirst(s, a, [b] + ([c] + []));
    RunFirst(Apply(s, a), b, [c] + []);
    RunFirst(Apply(Apply(s, a), b), c, []);
  }

  /** release_hardware_lock of a held window that nobody interrupts, up to its return. */
  function ReleaseSteps(id: Id, w: Lease.Fd): seq<Step> {
    [LetGo(id)] + BenchSteps([Lease.Truncate(w), Lease.Unlock(w)] + [Lease.Close(w)])
  }

  /** The session is about to let go of a held window its process remembers. */
  predicate Releasable(s: State, id: Id, w: Lease.Fd) {
    && UsesLock(s.sessions, id) && s.sessions[id].phase.Leaving?
    && s.sessions[id].pid in s.remembered && s.remembered[s.sessions[id].pid] == w && Lease.IsHeld(s.lease, w)
  }

  /** The bench once the window is let go and closed. */
  function Released(lease: Lease.State, w: Lease.Fd): Lease.State {
    Lease.State("", {}, lease.next, lease.sessions - {w}, lease.live - {w})
  }

  /** The session's release found the line to be its own. */
  function Clearing(s: State, id: Id, w: Lease.Fd): State
    requires id in s.sessions && w in s.lease.sessions
  {
    Put(s, id, Releasing(w, false)).(lease := Lease.At(s.lease, w, Lease.Clearing), letGo := s.letGo + {w})
  }

  lemma LetGoOfHeld(s: State, id: Id, w: Lease.Fd)
    requires Lease.Sound(s.lease) && Releasable(s, id, w)
    ensures BeginLetGo(s, id) == Clearing(s, id, w) && s.lease.locked == {w}
  {
    Lease.BeginReleaseClears(s.lease, w);
  }

  lemma ClearsAndCloses(s: State, w: Lease.Fd)
    requires w in s.lease.sessions && s.lease.sessions[w].phase.Clearing? && s.lease.locked == {w}
    ensures Run(s, BenchSteps([Lease.Truncate(w), Lease.Unlock(w)] + [Lease.Close(w)])) == s.(lease := Released(s.lease, w))
  {
    BenchRun(s, [Lease.Truncate(w), Lease.Unlock(w)] + [Lease.Close(w)]);
    Lease.ClearAndClose(s.lease, w);
  }

  lemma SameReleased(lease: Lease.State, w: Lease.Fd)
    requires w in lease.sessions
    ensures Released(Lease.At(lease, w, Lease.Clearing), w) == Released(lease, w)
  {
    assert Lease.At(lease, w, Lease.Clearing).sessions - {w} == lease.sessions - {w};
  }

  lemma LockReleased(s: State, id: Id, w: Lease.Fd)
    requires Inv(s) && Releasable(s, id, w)
    ensures Run(s, ReleaseSteps(id, w)) == Put(s, id, Releasing(w, false)).(lease := Released(s.lease, w), letGo := s.letGo + {w})
  {
    LetGoOfHeld(s, id, w);
    SameReleased(s.lease, w);
    LetGoFirst(s, id, BenchSteps([Lease.Truncate(w), Lease.Unlock(w)] + [Lease.Close(w)]));
    ClearsAndCloses(Clearing(s, id, w), w);
  }

  lemma {:induction false} LetGoFirst(s: State, id: Id, rest: seq<Step>)
    requires UsesLock(s.sessions, id) && s.sessions[id].phase.Leaving?
    ensures Run(s, [LetGo(id)] + rest) == Run(BeginLetGo(s, id), rest)
  {
    RunFirst(s, LetGo(id), rest);
  }

  /** A second session of the process leaves first: the flock goes from under the place of the one still inside. */
  lemma BorrowerLetsGo(s: State, outer: Id, inner: Id)
    requires Inv(s) && HasPlace(s, outer) && s.sessions[outer].phase.Body?
    requires Releasable(s, inner, s.sessions[outer].fd)
    ensures var t := Run(s, ReleaseSteps(inner, s.sessions[outer].fd));
            HasPlace(t, outer) && t.sessions[outer].phase.Body? && t.lease.locked == {} && t.lease.contents == ""
  {
    LockReleased(s, inner, s.sessions[outer].fd);
  }

  /** A place in hand, the flock with somebody else. */
  predicate Broken(s: State, id: Id, fd: Lease.Fd) {
    && HasPlace(s, id) && s.sessions[id].kind.Full? && s.sessions[id].phase.Body?
    && !HasFlock(s, id) && Lease.IsHeld(s.lease, fd) && fd != s.sessions[id].fd
  }

  /** The client's calls of a session inside, its place being free and the client answering. */
  lemma ServedAtOnce(s: State, id: Id)
    requires id in s.sessions && s.sessions[id].phase.Ready? && !s.sessions[id].kind.BenchOnly? && s.sessions[id].place !in s.places
    ensures var x := s.sessions[id];
            Run(s, [Call(id), Decide(id), Answer(id, true)]) == Put(s, id, Body).(places := s.places[x.place := Grant(x.user, id)])
  {
    RunThree(s, Call(id), Decide(id), Answer(id, true));
    var t1 := Put(s, id, Calling(false));
    var t2 := Granted(Put(t1, id, Calling(true)), id, Request(s.sessions[id].user, s.sessions[id].place));
    assert Apply(s, Call(id)) == t1;
    assert Apply(t1, Decide(id)) == t2;
    assert Apply(t2, Answer(id, true)) == Put(t2, id, Body);
    assert Put(t2, id, Body).sessions == Put(s, id, Body).sessions;
  }

  /** A window opened while the bench is free and the file empty gets in. */
  lemma LegacyTakes(s: State, legacy: Claim)
    requires Lease.Inv(s.lease) && s.lease.locked == {} && s.lease.contents == ""
    ensures var t := Run(s, BenchSteps(Lease.AcquireSteps(s.lease, legacy, false)));
            && t == s.(lease := t.lease) && Lease.IsHeld(t.lease, s.lease.next)
            && t.lease.sessions.Keys == s.lease.sessions.Keys + {s.lease.next}
  {
    Lease.AcquireOnlyActs(s.lease, legacy, false);
    BenchRun(s, Lease.AcquireSteps(s.lease, legacy, false));
    Lease.EntersFree(s.lease, legacy);
  }

  lemma SoundRelease(id: Id, w: Lease.Fd)
    ensures SoundSteps(ReleaseSteps(id, w))
  {
  }

  /** A release that raised after all: the session is gone, and its process remembers a closed window. */
  function AfterFailure(s: State, id: Id, w: Lease.Fd): State {
    Without(s, id).(lease := Released(s.lease, w), letGo := s.letGo + {w})
  }

  lemma FinishRaises(s: State, id: Id, w: Lease.Fd)
    requires UsesLock(s.sessions, id) && s.sessions[id].phase == Releasing(w, false) && w !in s.lease.sessions
    ensures Run(s, [Finish(id, true)]) == Without(s, id)
  {
    RunFirst(s, Finish(id, true), []);
    assert [Finish(id, true)] + [] == [Finish(id, true)];
  }

  lemma {:induction false} ReleaseFails(s: State, id: Id, w: Lease.Fd)
    requires Inv(s) && Releasable(s, id, w)
    ensures Run(s, ReleaseSteps(id, w) + [Finish(id, true)]) == AfterFailure(s, id, w)
  {
    var t := Put(s, id, Releasing(w, false)).(lease := Released(s.lease, w), letGo := s.letGo + {w});
    LockReleased(s, id, w);
    RunAppend(s, ReleaseSteps(id, w), [Finish(id, true)]);
    FinishRaises(t, id, w);
    assert t.sessions - {id} == s.sessions - {id};
  }

  lemma {:induction false} ReleasedInv(s: State, id: Id, w: Lease.Fd)
    requires Inv(s) && Releasable(s, id, w)
    ensures Lease.Inv(Released(s.lease, w)) && w < s.lease.next
  {
    LockReleased(s, id, w);
    SoundRelease(id, w);
    RunKeeps(s, ReleaseSteps(id, w));
    WindowsAreOld(s, w);
  }

  lemma WindowsAreOld(s: State, w: Lease.Fd)
    requires Inv(s) && w in s.lease.sessions
    ensures w < s.lease.next
  {
    assert Lease.SessionOk(s.lease, w, s.lease.sessions[w]);
  }

  function CallSteps(id: Id): seq<Step> { [Call(id), Decide(id), Answer(id, true)] }

  /** A process that remembers a lock object enters at once and has its place, whatever that object still holds. */
  lemma {:induction false} Reenters(s: State, user: string, place: string, claim: Claim)
    requires claim.pid in s.remembered && place !in s.places
    ensures var t := Run(s, [Start(Full, user, place, claim, false)] + CallSteps(s.next));
            && HasPlace(t, s.next) && t.sessions[s.next].kind.Full? && t.sessions[s.next].phase.Body?
            && t.sessions[s.next].fd == s.remembered[claim.pid] && t.lease == s.lease
  {
    var t := Apply(s, Start(Full, user, place, claim, false));
    RunFirst(s, Start(Full, user, place, claim, false), CallSteps(s.next));
    ServedAtOnce(t, s.next);
  }

  /** After a release that raised: the process enters again at once and has its place; then a legacy window takes the bench. */
  function FailingRun(s: State, id: Id, w: Lease.Fd, user: string, place: string, claim: Claim, legacy: Claim): seq<Step> {
    (ReleaseSteps(id, w) + [Finish(id, true)]) + (([Start(Full, user, place, claim, false)] + CallSteps(s.next))
      + BenchSteps(Lease.AcquireSteps(Released(s.lease, w), legacy, false)))
  }

  lemma {:induction false} FailedReleaseBreaks(s: State, id: Id, w: Lease.Fd, user: string, place: string, claim: Claim, legacy: Claim)
    requires Inv(s) && Releasable(s, id, w) && claim.pid == s.sessions[id].pid && place !in s.places
    ensures Broken(Run(s, FailingRun(s, id, w, user, place, claim, legacy)), s.next, s.lease.next)
  {
    var t := AfterFailure(s, id, w);
    var enter := [Start(Full, user, place, claim, false)] + CallSteps(s.next);
    var acquire := BenchSteps(Lease.AcquireSteps(Released(s.lease, w), legacy, false));
    ReleaseFails(s, id, w);
    ReleasedInv(s, id, w);
    Reenters(t, user, place, claim);
    RunAppend(s, ReleaseSteps(id, w) + [Finish(id, true)], enter + acquire);
    RunAppend(t, enter, acquire);
    LegacyTakes(Run(t, enter), legacy);
    BreaksNow(Run(t, enter), Run(Run(t, enter), acquire), s.next, s.lease.next);
  }

  lemma BreaksNow(s: State, t: State, id: Id, fd: Lease.Fd)
    requires HasPlace(s, id) && s.sessions[id].kind.Full? && s.sessions[id].phase.Body? && t == s.(lease := t.lease)
    requires Lease.IsHeld(t.lease, fd) && fd != s.sessions[id].fd && s.sessions[id].fd !in t.lease.sessions
    ensures Broken(t, id, fd)
  {
  }

  /** The inner session of NestedLetsGo, up to its release. */
  lemma {:induction false} Nests(s: State, outer: Id, start: Step)
    requires HasPlace(s, outer) && HasFlock(s, outer) && s.next != outer && start.Start? && start.kind.BenchOnly?
    requires start.claim.pid in s.remembered && s.remembered[start.claim.pid] == s.sessions[outer].fd
    ensures var t := Run(s, [start] + [EndBody(s.next)]);
            Releasable(t, s.next, s.sessions[outer].fd) && outer in t.sessions && t.sessions[outer] == s.sessions[outer] && HasPlace(t, outer)
  {
    var t := Apply(s, start);
    RunFirst(s, start, [EndBody(s.next)]);
    RunFirst(t, EndBody(s.next), []);
    assert [EndBody(s.next)] + [] == [EndBody(s.next)];
    BorrowerBegins(s, start);
    assert Apply(t, EndBody(s.next)) == Put(t, s.next, Leaving);
  }

  lemma BorrowerBegins(s: State, start: Step)
    requires start.Start? && !start.kind.PlaceOnly? && start.claim.pid in s.remembered
    ensures var t := Apply(s, start);
            var w := s.remembered[start.claim.pid];
            && t.sessions == s.sessions[s.next := Session(start.kind, start.user, start.claim.pid, start.place, w, true, Ready)]
            && t.lease == s.lease && t.places == s.places && t.remembered == s.remembered
  {
  }

  /** With no error at all: a second session of the process, opened and ended inside, takes the flock with it. */
  lemma {:induction false} NestedLetsGo(s: State, outer: Id, start: Step)
    requires Inv(s) && HasPlace(s, outer) && s.sessions[outer].phase.Body? && HasFlock(s, outer)
    requires start.Start? && start.kind.BenchOnly? && SoundStep(start)
    requires start.claim.pid in s.remembered && s.remembered[start.claim.pid] == s.sessions[outer].fd
    ensures var t := Run(s, ([start] + [EndBody(s.next)]) + ReleaseSteps(s.next, s.sessions[outer].fd));
            HasPlace(t, outer) && t.sessions[outer].phase.Body? && t.lease.locked == {} && t.lease.contents == ""
  {
    var w := s.sessions[outer].fd;
    assert SessionOk(s, outer) && SoundSteps([start] + [EndBody(s.next)]);
    RunKeeps(s, [start] + [EndBody(s.next)]);
    Nests(s, outer, start);
    RunAppend(s, [start] + [EndBody(s.next)], ReleaseSteps(s.next, w));
    BorrowerLetsGo(Run(s, [start] + [EndBody(s.next)]), outer, s.next);
  }

  // ---- a session nobody disturbs -----------------------------------------------------------------------

  lemma {:induction false} BenchRunsOn(s: State, kind: Kind, user: string, place: string, claim: Claim, reclaim: bool, steps: seq<Lease.Step>)
    requires !kind.PlaceOnly? && claim.pid !in s.remembered
    requires steps != [] && steps[0] == Lease.Open(Lease.Window, claim, reclaim)
    requires forall i :: 0 < i < |steps| ==> !Lease.LetsGo(steps[i])
    ensures var started := Apply(s, Start(kind, user, place, claim, reclaim));
            Run(started, BenchSteps(steps[1..])) == started.(lease := Lease.Run(s.lease, steps))
  {
    BenchRun(Apply(s, Start(kind, user, place, claim, reclaim)), steps[1..]);
  }

  /** The bench half: a session whose acquire nobody disturbs holds its window exactly when the verdict lets it in. */
  lemma {:induction false} BenchAlone(s: State, kind: Kind, user: string, place: string, claim: Claim, reclaim: bool)
    requires Inv(s) && Lease.ValidClaim(claim) && !kind.PlaceOnly? && claim.pid !in s.remembered
    ensures var started := Apply(s, Start(kind, user, place, claim, reclaim));
            var t := Run(started, BenchSteps(Lease.AcquireSteps(s.lease, claim, reclaim)[1..]));
            && t == started.(lease := t.lease) && s.next in t.sessions && t.sessions[s.next].phase.Asking?
            && t.sessions[s.next].fd == s.lease.next
            && (Lease.IsHeld(t.lease, s.lease.next) <==> Lease.Judge(s.lease.contents, s.lease.locked != {}, reclaim).Entered?)
            && (s.lease.next !in t.lease.sessions <==> !Lease.Judge(s.lease.contents, s.lease.locked != {}, reclaim).Entered?)
  {
    Lease.AcquireOnlyActs(s.lease, claim, reclaim);
    Lease.AcquireOutcome(s.lease, claim, reclaim);
    BenchRunsOn(s, kind, user, place, claim, reclaim, Lease.AcquireSteps(s.lease, claim, reclaim));
  }

  /** Inside a held bench, with the place free and the client answering, a session gets its place. */
  lemma {:induction false} PlaceAlone(s: State, id: Id)
    requires id in s.sessions && s.sessions[id].kind.Full? && s.sessions[id].phase.Asking?
    requires Lease.IsHeld(s.lease, s.sessions[id].fd) && s.sessions[id].place !in s.places
    ensures var t := Run(s, [Enter(id)] + CallSteps(id));
            && HasPlace(t, id) && t.sessions[id].phase.Body?
            && t.lease == s.lease && t.astray == s.astray && t.sessions[id].fd == s.sessions[id].fd
            && t.sessions[id].pid in t.remembered && t.remembered[t.sessions[id].pid] == t.sessions[id].fd
  {
    RunFirst(s, Enter(id), CallSteps(id));
    ServedAtOnce(Apply(s, Enter(id)), id);
  }

  /** A first session of a fresh bench, ready to let go. */
  function OpeningRun(user: string, place: string, claim: Claim): seq<Step> {
    [Start(BenchOnly, user, place, claim, false)]
    + (BenchSteps(Lease.AcquireSteps(Lease.Initial(""), claim, false)[1..]) + ([Enter(0)] + [EndBody(0)]))
  }

  lemma {:induction false} OpensReleasable(user: string, place: string, claim: Claim)
    requires Lease.ValidClaim(claim)
    ensures var s := Run(Initial(""), OpeningRun(user, place, claim));
            Releasable(s, 0, 0) && s.sessions[0].pid == claim.pid && s.places == map[] && SoundSteps(OpeningRun(user, place, claim))
  {
    var s, start := Initial(""), Start(BenchOnly, user, place, claim, false);
    var acquire, rest := BenchSteps(Lease.AcquireSteps(s.lease, claim, false)[1..]), [Enter(0)] + [EndBody(0)];
    InitialOk("");
    BenchAlone(s, BenchOnly, user, place, claim, false);
    RunFirst(s, start, acquire + rest);
    var t := Run(Apply(s, start), acquire);
    RunAppend(Apply(s, start), acquire, rest);
    EntersAndLeaves(t, 0);
    OpeningSound(user, place, claim);
  }

  lemma {:induction false} EntersAndLeaves(s: State, id: Id)
    requires id in s.sessions && s.sessions[id].kind.BenchOnly? && s.sessions[id].phase.Asking? && Lease.IsHeld(s.lease, s.sessions[id].fd)
    ensures var t := Run(s, [Enter(id)] + [EndBody(id)]);
            Releasable(t, id, s.sessions[id].fd) && t.sessions[id].pid == s.sessions[id].pid && t.places == s.places
  {
    RunFirst(s, Enter(id), [EndBody(id)]);
    RunFirst(Apply(s, Enter(id)), EndBody(id), []);
    assert [EndBody(id)] + [] == [EndBody(id)];
  }

  lemma {:induction false} SoundTogether(a: seq<Step>, b: seq<Step>)
    requires SoundSteps(a) && SoundSteps(b)
    ensures SoundSteps(a + b)
  {
  }

  lemma {:induction false} SoundBench(steps: seq<Lease.Step>)
    requires forall i :: 0 <= i < |steps| && steps[i].Open? ==> Lease.ValidClaim(steps[i].claim)
    ensures SoundSteps(BenchSteps(steps))
  {
  }

  lemma {:induction false} OpeningSound(user: string, place: string, claim: Claim)
    requires Lease.ValidClaim(claim)
    ensures SoundSteps(OpeningRun(user, place, claim))
  {
    var acquire := Lease.AcquireSteps(Lease.Initial(""), claim, false)[1..];
    Lease.OpensFirst(Lease.Initial(""), claim, false);
    SoundBench(acquire);
    assert SoundSteps([Enter(0)] + [EndBody(0)]) && SoundSteps([Start(BenchOnly, user, place, claim, false)]);
    SoundTogether(BenchSteps(acquire), [Enter(0)] + [EndBody(0)]);
    SoundTogether([Start(BenchOnly, user, place, claim, false)], BenchSteps(acquire) + ([Enter(0)] + [EndBody(0)]));
  }

  /** So the discipline does not hold of every run: from an empty file, for any user, place and processes, some run has a place without the flock and a legacy window with it. */
  lemma {:induction false} DisciplineBreaks(user: string, place: string, claim: Claim, legacy: Claim)
    requires Lease.ValidClaim(claim) && Lease.ValidClaim(legacy)
    ensures exists steps, id, fd :: SoundSteps(steps) && Broken(Run(Initial(""), steps), id, fd)
  {
    var opening := OpeningRun(user, place, claim);
    var s := Run(Initial(""), opening);
    OpensReleasable(user, place, claim);
    Reachable("", opening);
    var failing := FailingRun(s, 0, 0, user, place, claim, legacy);
    FailedReleaseBreaks(s, 0, 0, user, place, claim, legacy);
    RunAppend(Initial(""), opening, failing);
    FailingSound(s, 0, 0, user, place, claim, legacy);
    SoundTogether(opening, failing);
    assert Broken(Run(Initial(""), opening + failing), s.next, s.lease.next);
  }

  lemma {:induction false} FailingSound(s: State, id: Id, w: Lease.Fd, user: string, place: string, claim: Claim, legacy: Claim)
    requires Lease.ValidClaim(claim) && Lease.ValidClaim(legacy)
    ensures SoundSteps(FailingRun(s, id, w, user, place, claim, legacy))
  {
    var enter := [Start(Full, user, place, claim, false)] + CallSteps(s.next);
    var acquire := Lease.AcquireSteps(Released(s.lease, w), legacy, false);
    Lease.OpensFirst(Released(s.lease, w), legacy, false);
    SoundBench(acquire);
    SoundRelease(id, w);
    assert SoundSteps([Finish(id, true)]) && SoundSteps(enter);
    SoundTogether(ReleaseSteps(id, w), [Finish(id, true)]);
    SoundTogether(enter, BenchSteps(acquire));
    SoundTogether(ReleaseSteps(id, w) + [Finish(id, true)], enter + BenchSteps(acquire));
  }

  // ---- waiting -----------------------------------------------------------------------------------------

  predicate WantsBench(s: State, id: Id) {
    UsesLock(s.sessions, id) && s.sessions[id].phase.Asking? && s.sessions[id].fd !in s.lease.locked
  }

  predicate HasBench(s: State, id: Id) {
    UsesLock(s.sessions, id) && s.sessions[id].fd in s.lease.locked
  }

  /** A session whose call for its place has not been granted. */
  predicate WantsPlace(s: State, id: Id) {
    id in s.sessions && s.sessions[id].phase.Calling? && !HasPlace(s, id)
  }

  /** `a` asks for what `b` has. */
  predicate Waits(s: State, a: Id, b: Id) {
    || (WantsBench(s, a) && HasBench(s, b))
    || (WantsPlace(s, a) && b in s.sessions && s.sessions[a].place in s.places && s.places[s.sessions[a].place].holder == b)
  }

  /** How far a session has come in the order bench, place. */
  function Rank(s: State, id: Id): nat {
    if WantsBench(s, id) then 0 else if WantsPlace(s, id) then 1 else 2
  }

  lemma OneBench(s: State, a: Id, b: Id)
    requires Inv(s) && HasBench(s, a) && HasBench(s, b)
    ensures s.sessions[a].fd == s.sessions[b].fd && s.sessions[a].pid == s.sessions[b].pid && (a == b || !Alone(s, a))
  {
    assert SessionOk(s, a) && SessionOk(s, b);
  }

  /**
   The order of venue_mutex, kept by every run: bench first, place under it, and one bench. A full session asks
   for its place inside the bench, unless a release of its window has begun; one that is alone, always.
   */
  lemma {:induction false} OrderKept(contents: string, steps: seq<Step>)
    requires SoundSteps(steps)
    ensures var s := Run(Initial(contents), steps);
            && (forall a: Id, b: Id :: HasBench(s, a) && HasBench(s, b) ==>
                  s.sessions[a].fd == s.sessions[b].fd && s.sessions[a].pid == s.sessions[b].pid && (a == b || !Alone(s, a)))
            && (forall a: Id :: WantsBench(s, a) ==> !HasPlace(s, a))
            && (forall a: Id :: WantsPlace(s, a) && s.sessions[a].kind.Full? && (Alone(s, a) || s.sessions[a].fd !in s.letGo) ==> HasBench(s, a))
  {
    var s := Run(Initial(contents), steps);
    Reachable(contents, steps);
    forall a: Id, b: Id | HasBench(s, a) && HasBench(s, b)
      ensures s.sessions[a].fd == s.sessions[b].fd && s.sessions[a].pid == s.sessions[b].pid && (a == b || !Alone(s, a))
    {
      OneBench(s, a, b);
    }
    forall a: Id | WantsBench(s, a) ensures !HasPlace(s, a) { OwnPlace(s, a); }
    forall a: Id | WantsPlace(s, a) && s.sessions[a].kind.Full? && (Alone(s, a) || s.sessions[a].fd !in s.letGo) ensures HasBench(s, a) {
      FlockExactly(s, a);
    }
  }

  /** Whoever is waited for stands further on. */
  lemma WaitRises(s: State, a: Id, b: Id)
    requires Inv(s) && Waits(s, a, b)
    ensures Rank(s, a) < Rank(s, b) <= 2
  {
    if !WantsBench(s, a) {
      OwnPlace(s, b);
      assert HasPlace(s, b);
    }
  }

  lemma {:induction false} ChainRises(s: State, chain: seq<Id>)
    requires Inv(s) && chain != [] && forall k :: 0 <= k < |chain| - 1 ==> Waits(s, chain[k], chain[k + 1])
    ensures Rank(s, chain[0]) + |chain| - 1 <= Rank(s, chain[|chain| - 1])
  {
    if |chain| > 1 {
      WaitRises(s, chain[0], chain[1]);
      ChainRises(s, chain[1..]);
    }
  }

  /** In every reachable state a chain of sessions waiting one for the next has at most three members. */
  lemma {:induction false} WaitChainsAreShort(contents: string, steps: seq<Step>, chain: seq<Id>)
    requires SoundSteps(steps) && chain != []
    requires var s := Run(Initial(contents), steps); forall k :: 0 <= k < |chain| - 1 ==> Waits(s, chain[k], chain[k + 1])
    ensures |chain| <= 3
  {
    Reachable(contents, steps);
    ChainRises(Run(Initial(contents), steps), chain);
  }

  /** The k-th session of a circle waits for the next one. */
  predicate Link(s: State, circle: seq<Id>, k: nat)
    requires k < |circle|
  {
    Waits(s, circle[k], circle[if k + 1 == |circle| then 0 else k + 1])
  }

  /** In no reachable state does a circle of sessions, however long, have each waiting for the next. */
  lemma {:induction false} NoCircularWait(contents: string, steps: seq<Step>, circle: seq<Id>)
    requires SoundSteps(steps) && circle != []
    ensures exists k: nat :: k < |circle| && !Link(Run(Initial(contents), steps), circle, k)
  {
    var s, last := Run(Initial(contents), steps), |circle| - 1;
    Reachable(contents, steps);
    if forall k: nat :: k < last ==> Link(s, circle, k) {
      forall k | 0 <= k < last ensures Waits(s, circle[k], circle[k + 1]) { assert Link(s, circle, k); }
      ChainRises(s, circle);
      if Link(s, circle, last) { WaitRises(s, circle[last], circle[0]); }
    }
  }
}
