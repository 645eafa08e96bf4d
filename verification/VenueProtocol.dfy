/**
 Many venue sessions at once (lib/labgrid_venue.py over lib/hardware_lock.py): a transition system around the
 one of BenchLease. A full session takes the bench lease through its process's hardware lock, asks the
 coordinator for its place inside it, and gives both up in reverse; a bench-only session takes just the hardware
 lock; a place-only session (file_lock=False, or a foreign labgrid user) takes just the place; legacy
 participants open windows of their own. A process remembers the lock object it acquired until a release of it
 succeeds, and while it does, its sessions start without asking the bench. Client calls may be refused, lost,
 answered late, interrupted, or granted after the caller gave up, and any process may die anywhere.
 */
module VenueProtocol {
  import opened Prelude
  import opened HolderLine
  import Lease = BenchLease

  type Id = nat

  datatype Kind = Full | BenchOnly | PlaceOnly

  datatype Phase =
    | Asking                                 // the bench lease's acquire is under way
    | Ready                                  // the hardware lock has returned, or is not needed
    | Calling(granted: bool)                 // the client's acquire has been sent; the coordinator has granted it or not
    | Undoing                                // the call failed: a best-effort release comes next
    | Body                                   // the place is in hand
    | Freeing                                // the body has ended
    | Leaving                                // done with the place
    | Releasing(window: Lease.Fd, raised: bool) // the hardware lock's window is being released

  /** `fd` is the window behind the session's hardware lock, its own or one its process remembered. */
  datatype Session = Session(kind: Kind, user: string, pid: int, place: string, fd: Lease.Fd, borrowed: bool, phase: Phase)

  datatype Grant = Grant(user: string, holder: Id)

  datatype Request = Request(user: string, place: string)

  /**
   The bench lease; who has which place; the sessions; calls whose sender gave up before they were decided; the
   sessions whose place is theirs with nobody left to give it up; the lock object each process remembers; the
   windows whose release by a hardware lock has begun; and the sessions that were open beside another one on
   the same process's hardware lock.
   */
  datatype State = State(lease: Lease.State, places: map<string, Grant>, sessions: map<Id, Session>, next: Id,
                         late: map<Id, Request>, astray: set<Id>,
                         remembered: map<int, Lease.Fd>, letGo: set<Lease.Fd>, shared: set<Id>)

  datatype Step =
    | Bench(step: Lease.Step)                                            // a step of the bench lease, by anybody
    | Start(kind: Kind, user: string, place: string, claim: Claim, reclaim: bool)
    | Enter(id: Id)                                                      // the bench acquire has returned
    | Call(id: Id)
    | Decide(id: Id)                                                     // the coordinator grants the call
    | Answer(id: Id, ok: bool)                                           // what the client reports, a timeout being no
    | Undo(id: Id, reaches: bool)
    | EndBody(id: Id)
    | Free(id: Id, reaches: bool)
    | LetGo(id: Id)                                                      // release_hardware_lock begins
    | Botch(id: Id)                                                      // an I/O error before the line is cleared
    | Finish(id: Id, fault: bool)                                        // it has returned, or raised for a later error
    | Interrupt(id: Id)                                                  // an error no handler of the session expects
    | GrantLate(id: Id)                                                  // a given-up call is granted after all
    | Crash(pid: int)

  function Initial(contents: string): State { State(Lease.Initial(contents), map[], map[], 0, map[], {}, map[], {}, {}) }

  function Put(s: State, id: Id, phase: Phase): State
    requires id in s.sessions
  {
    s.(sessions := s.sessions[id := s.sessions[id].(phase := phase)])
  }

  /** Its own place is in this session's name. */
  predicate HasPlace(s: State, id: Id) {
    id in s.sessions && s.sessions[id].place in s.places && s.places[s.sessions[id].place].holder == id
  }

  /** A release of the session's place: it frees what the same user has, if it arrives. */
  function GivenUp(s: State, id: Id, reaches: bool): State
    requires id in s.sessions
  {
    var x := s.sessions[id];
    if reaches && x.place in s.places && s.places[x.place].user == x.user then s.(places := s.places - {x.place})
    else if HasPlace(s, id) then s.(astray := s.astray + {id})
    else s
  }

  /** A call nobody will undo: its place is taken already, or may be later. */
  function Abandoned(s: State, id: Id): State
    requires id in s.sessions
  {
    var x := s.sessions[id];
    if x.phase == Calling(false) then s.(late := s.late[id := Request(x.user, x.place)])
    else if HasPlace(s, id) then s.(astray := s.astray + {id})
    else s
  }

  /**
   A death takes the whole process. A window of a hardware lock is released only through it, and an error
   within that release is known to the session releasing it.
   */
  predicate MayStep(s: State, step: Lease.Step) {
    && !step.Crash?
    && (step.BeginRelease? ==>
          && !Recalled(s.remembered, step.fd)
          && forall id :: id in s.sessions && !s.sessions[id].kind.PlaceOnly? ==> s.sessions[id].fd != step.fd)
    && (step.Fail? ==> forall id :: id in s.sessions && s.sessions[id].phase.Releasing? ==> s.sessions[id].phase.window != step.fd)
  }

  /** Some process remembers this window. */
  predicate Recalled(memory: map<int, Lease.Fd>, w: Lease.Fd) { exists pid :: pid in memory && memory[pid] == w }

  /** Sessions on the hardware lock of this process. */
  function OnLock(s: State, pid: int): set<Id> {
    set id | id in s.sessions && UsesLock(s.sessions, id) && s.sessions[id].pid == pid
  }

  function Of(s: State, pid: int): set<Id> {
    set id | id in s.sessions && s.sessions[id].pid == pid
  }

  function Dead(s: State, pid: int): State {
    var gone := Of(s, pid);
    s.(lease := Lease.Apply(s.lease, Lease.Crash(pid)),
       sessions := s.sessions - gone,
       late := s.late + (map id | id in gone && s.sessions[id].phase == Calling(false) :: Request(s.sessions[id].user, s.sessions[id].place)),
       astray := s.astray + (set id | id in gone && HasPlace(s, id)),
       remembered := s.remembered - {pid})
  }

  function Granted(s: State, id: Id, request: Request): State {
    s.(places := s.places[request.place := Grant(request.user, id)])
  }

  /** acquire_hardware_lock returns at once when the process remembers a lock object, and opens a window otherwise. */
  function Started(s: State, kind: Kind, user: string, place: string, claim: Claim, reclaim: bool): State {
    var pid := claim.pid;
    if kind.PlaceOnly? then
      s.(next := s.next + 1, sessions := s.sessions[s.next := Session(kind, user, pid, place, 0, false, Ready)])
    else
      var others := OnLock(s, pid);
      var t := s.(next := s.next + 1, shared := s.shared + if others == {} then {} else others + {s.next});
      if pid in s.remembered then
        t.(sessions := s.sessions[s.next := Session(kind, user, pid, place, s.remembered[pid], true, Ready)])
      else
        t.(lease := Lease.Apply(s.lease, Lease.Open(Lease.Window, claim, reclaim)),
           sessions := s.sessions[s.next := Session(kind, user, pid, place, s.lease.next, false, Asking)])
  }

  function Without(s: State, id: Id): State { s.(sessions := s.sessions - {id}) }

  /** release_hardware_lock begins: nothing to do without a lock object, and only forgetting for one that is closed. */
  function BeginLetGo(s: State, id: Id): State
    requires id in s.sessions
  {
    var pid := s.sessions[id].pid;
    if pid !in s.remembered then Without(s, id)
    else if Lease.IsHeld(s.lease, s.remembered[pid]) then
      var w := s.remembered[pid];
      Put(s, id, Releasing(w, false)).(lease := Lease.Apply(s.lease, Lease.BeginRelease(w)), letGo := s.letGo + {w})
    else if s.remembered[pid] !in s.lease.sessions then Without(s, id).(remembered := s.remembered - {pid})
    else s
  }

  /** The end of a session; a hardware lock whose release raised stays remembered. */
  function Finished(s: State, id: Id, fault: bool): State
    requires id in s.sessions
  {
    var x := s.sessions[id];
    if x.kind.PlaceOnly? then (if x.phase.Leaving? then Without(s, id) else s)
    else if x.phase.Asking? then (if x.fd !in s.lease.sessions then Without(s, id) else s)
    else if x.phase.Releasing? && x.phase.window !in s.lease.sessions then
      (if x.phase.raised || fault then Without(s, id) else Without(s, id).(remembered := s.remembered - {x.pid}))
    else s
  }

  /** A step that is not enabled changes nothing. */
  function Apply(s: State, step: Step): State {
    match step
    case Bench(b) => if MayStep(s, b) then s.(lease := Lease.Apply(s.lease, b)) else s
    case Start(kind, user, place, claim, reclaim) => Started(s, kind, user, place, claim, reclaim)
    case Crash(pid) => Dead(s, pid)
    case GrantLate(id) =>
      if id !in s.late || s.late[id].place in s.places then s else
        var t := Granted(s, id, s.late[id]).(late := s.late - {id});
        if id in s.sessions && s.sessions[id].phase.Undoing? then t else t.(astray := s.astray + {id})
    case _ => if step.id in s.sessions then Act(s, step, s.sessions[step.id]) else s
  }

  function Act(s: State, step: Step, x: Session): State
    requires !step.Bench? && !step.Start? && !step.Crash? && !step.GrantLate?
    requires step.id in s.sessions && x == s.sessions[step.id]
  {
    var id := step.id;
    match step
    case Enter(_) =>
      if x.phase.Asking? && Lease.IsHeld(s.lease, x.fd) then Put(s, id, Ready).(remembered := s.remembered[x.pid := x.fd]) else s
    case Call(_) => if x.phase.Ready? && !x.kind.BenchOnly? then Put(s, id, Calling(false)) else s
    case Decide(_) =>
      if x.phase == Calling(false) && x.place !in s.places then Granted(Put(s, id, Calling(true)), id, Request(x.user, x.place)) else s
    case Answer(_, ok) =>
      if !x.phase.Calling? then s
      else if ok then (if x.phase.granted then Put(s, id, Body) else s)
      else if x.phase.granted then Put(s, id, Undoing)
      else Put(s, id, Undoing).(late := s.late[id := Request(x.user, x.place)])
    case Undo(_, reaches) => if x.phase.Undoing? then Put(GivenUp(s, id, reaches), id, Leaving) else s
    case EndBody(_) =>
      if x.phase.Body? then Put(s, id, Freeing) else if x.phase.Ready? && x.kind.BenchOnly? then Put(s, id, Leaving) else s
    case Free(_, reaches) => if x.phase.Freeing? then Put(GivenUp(s, id, reaches), id, Leaving) else s
    case LetGo(_) => if x.phase.Leaving? && !x.kind.PlaceOnly? then BeginLetGo(s, id) else s
    case Botch(_) =>
      if x.phase.Releasing? && x.phase.window in s.lease.sessions && s.lease.sessions[x.phase.window].phase.Clearing?
      then Put(s, id, Releasing(x.phase.window, true)).(lease := Lease.Apply(s.lease, Lease.Fail(x.phase.window))) else s
    case Finish(_, fault) => Finished(s, id, fault)
    case Interrupt(_) =>
      if x.phase.Calling? then Put(Abandoned(s, id), id, Leaving)
      else if x.phase.Asking? || x.phase.Ready? || x.phase.Leaving? then Without(s, id)
      else s
  }

  function Run(s: State, steps: seq<Step>): State
    decreases |steps|
  {
    if steps == [] then s else Run(Apply(s, steps[0]), steps[1..])
  }

  ghost predicate SoundStep(step: Step) {
    && (step.Start? ==> Lease.ValidClaim(step.claim))
    && (step.Bench? && step.step.Open? ==> Lease.ValidClaim(step.step.claim))
  }

  ghost predicate SoundSteps(steps: seq<Step>) { forall i :: 0 <= i < |steps| ==> SoundStep(steps[i]) }

  // ---- what single steps do and do not -------------------------------------------------------------

  /** A place is never taken from its holder by another grant, only given up. */
  lemma NeverStolen(s: State, step: Step, p: string)
    requires p in s.places && p in Apply(s, step).places
    ensures Apply(s, step).places[p] == s.places[p]
  {
  }

  /** A late grant takes a free place for the user who asked, and nobody is left to give it up unless the undo is still to come. */
  lemma LateGrantTakes(s: State, id: Id)
    requires id in s.late
    ensures var r, t := s.late[id], Apply(s, GrantLate(id));
            if r.place in s.places then t == s
            else t.places == s.places[r.place := Grant(r.user, id)] && t.late == s.late - {id} && t.sessions == s.sessions
                 && t.astray == s.astray + if id in s.sessions && s.sessions[id].phase == Undoing then {} else {id}
  {
  }

  /** A death leaves the calls of its sessions undecided behind, as they were made, and other processes alone. */
  lemma DeathLeavesCalls(s: State, pid: int, id: Id)
    requires id in s.sessions
    ensures var x, t := s.sessions[id], Apply(s, Crash(pid));
            if x.pid != pid then id in t.sessions && t.sessions[id] == x
            else id !in t.sessions
                 && (x.phase == Calling(false) ==> id in t.late && t.late[id] == Request(x.user, x.place))
                 && (x.phase != Calling(false) ==> (id in t.late <==> id in s.late))
  {
  }

  /** A session still asking for the bench ends exactly when its description is closed. */
  lemma AskerEnds(s: State, id: Id, fault: bool)
    requires id in s.sessions && s.sessions[id].phase == Asking && s.sessions[id].kind != PlaceOnly
    ensures Apply(s, Finish(id, fault)) == if s.sessions[id].fd in s.lease.sessions then s else Without(s, id)
  {
  }

  /** An error while a window is being released is the releasing session's own step. */
  lemma ErrorsAreKnown(s: State, id: Id, w: Lease.Fd, raised: bool)
    requires id in s.sessions && s.sessions[id].phase == Releasing(w, raised)
    ensures Apply(s, Bench(Lease.Fail(w))) == s
  {
  }

  // ---- the invariant: the bench half -------------------------------------------------------------

  /** A released window, or one on its way there, is never held again. */
  ghost predicate Past(lease: Lease.State, w: Lease.Fd) {
    && w < lease.next
    && (w in lease.sessions ==>
          lease.sessions[w].phase.Clearing? || lease.sessions[w].phase.Unlocking? || lease.sessions[w].phase.Closing?)
  }

  ghost predicate Belongs(lease: Lease.State, w: Lease.Fd, pid: int) {
    w < lease.next && (w in lease.sessions ==> lease.sessions[w].claim.pid == pid)
  }

  /** A window behind a hardware lock of this process is held exactly until its release begins. */
  ghost predicate Backs(lease: Lease.State, letGo: set<Lease.Fd>, w: Lease.Fd, pid: int) {
    Belongs(lease, w, pid) && (w in letGo || Lease.IsHeld(lease, w))
  }

  ghost predicate Waiting(s: State, x: Session) {
    !x.borrowed && Belongs(s.lease, x.fd, x.pid) && x.fd !in s.letGo && !Recalled(s.remembered, x.fd)
  }

  ghost predicate BenchOk(s: State, x: Session) {
    if x.kind.PlaceOnly? then !x.phase.Asking? && !x.phase.Releasing?
    else if x.phase.Asking? then Waiting(s, x)
    else Backs(s.lease, s.letGo, x.fd, x.pid)
  }

  /** It neither found a remembered lock object nor was ever beside another session on its process's hardware lock. */
  predicate Alone(s: State, id: Id) { id in s.sessions && !s.sessions[id].borrowed && id !in s.shared }

  ghost predicate AloneOk(s: State, id: Id)
    requires id in s.sessions
  {
    var x := s.sessions[id];
    !x.kind.PlaceOnly? && !x.phase.Asking? && !x.phase.Releasing? && Alone(s, id) ==> x.fd !in s.letGo
  }

  /** A session that goes through its process's hardware lock. */
  predicate UsesLock(sessions: map<Id, Session>, id: Id) { id in sessions && !sessions[id].kind.PlaceOnly? }

  /** A session asking for the bench has a window nobody else goes by. */
  ghost predicate AskersApart(sessions: map<Id, Session>) {
    forall i, j :: UsesLock(sessions, i) && UsesLock(sessions, j) && sessions[i].phase.Asking? && sessions[i].fd == sessions[j].fd ==> i == j
  }

  ghost predicate SharedOk(s: State) {
    forall i, j :: UsesLock(s.sessions, i) && UsesLock(s.sessions, j) && i != j && s.sessions[i].pid == s.sessions[j].pid ==> i in s.shared
  }

  ghost predicate SessionOk(s: State, id: Id) {
    id in s.sessions ==> id < s.next && BenchOk(s, s.sessions[id]) && AloneOk(s, id)
  }

  ghost predicate MemoryOk(s: State, pid: int) { pid in s.remembered ==> Backs(s.lease, s.letGo, s.remembered[pid], pid) }

  ghost predicate BenchInv(s: State) {
    && Lease.Sound(s.lease)
    && AskersApart(s.sessions)
    && SharedOk(s)
    && (forall id {:trigger SessionOk(s, id)} :: SessionOk(s, id))
    && (forall id :: id in s.shared ==> id < s.next)
    && (forall pid {:trigger MemoryOk(s, pid)} :: MemoryOk(s, pid))
    && (forall w {:trigger Past(s.lease, w)} :: w in s.letGo ==> Past(s.lease, w))
  }

  // ---- the invariant: the places ------------------------------------------------------------------

  /** The phases in which a session may have its place and still give it up. */
  predicate MayHave(p: Phase) { p == Calling(true) || p.Undoing? || p.Body? || p.Freeing? }

  predicate Done(p: Phase) { p.Leaving? || p.Releasing? }

  /** A place is a present session's own, in a phase that gives it up, or its owner is astray. */
  ghost predicate PlaceOk(s: State, place: string, g: Grant) {
    && g.holder < s.next
    && (g.holder !in s.sessions ==> g.holder in s.astray)
    && (g.holder in s.sessions ==>
          && s.sessions[g.holder].place == place && s.sessions[g.holder].user == g.user
          && (MayHave(s.sessions[g.holder].phase) || (Done(s.sessions[g.holder].phase) && g.holder in s.astray)))
  }

  ghost predicate LateOk(s: State, id: Id, r: Request) {
    id < s.next
    && (id in s.sessions ==> r == Request(s.sessions[id].user, s.sessions[id].place) && (s.sessions[id].phase.Undoing? || Done(s.sessions[id].phase)))
  }

  ghost predicate PlaceInv(s: State) {
    && (forall id :: id in s.sessions ==> id < s.next)
    && (forall p :: p in s.places ==> PlaceOk(s, p, s.places[p]))
    && (forall id :: id in s.late ==> LateOk(s, id, s.late[id]))
  }

  ghost predicate Inv(s: State) { BenchInv(s) && PlaceInv(s) }

  // ---- steps of the bench lease --------------------------------------------------------------------

  lemma PastStays(lease: Lease.State, b: Lease.Step, w: Lease.Fd)
    requires Past(lease, w)
    ensures Past(Lease.Apply(lease, b), w)
  {
  }

  lemma BelongsStays(lease: Lease.State, b: Lease.Step, w: Lease.Fd, pid: int)
    requires Belongs(lease, w, pid)
    ensures Belongs(Lease.Apply(lease, b), w, pid)
  {
    if w in Lease.Apply(lease, b).sessions { Lease.SameClaim(lease, b, w); }
    NextGrows(lease, b);
  }

  lemma NextGrows(lease: Lease.State, b: Lease.Step)
    ensures lease.next <= Lease.Apply(lease, b).next
  {
  }

  lemma BacksStays(lease: Lease.State, b: Lease.Step, letGo: set<Lease.Fd>, letGo': set<Lease.Fd>, w: Lease.Fd, pid: int)
    requires Lease.Inv(lease) && Backs(lease, letGo, w, pid) && letGo <= letGo'
    requires (b.BeginRelease? ==> b.fd != w || w in letGo') && (b.Crash? ==> b.pid != pid)
    ensures Backs(Lease.Apply(lease, b), letGo', w, pid)
  {
    BelongsStays(lease, b, w, pid);
    if w !in letGo' { Lease.HeldStep(lease, b, w); }
  }

  /** What a step of the bench that lets go of no window but those of `t.letGo` leaves of a session. */
  lemma SessionStays(s: State, b: Lease.Step, t: State, id: Id)
    requires BenchInv(s) && t.lease == Lease.Apply(s.lease, b) && id in s.sessions
    requires s.letGo <= t.letGo && (forall w :: w in t.letGo ==> w in s.letGo || Recalled(s.remembered, w))
    requires forall w :: Recalled(t.remembered, w) ==> Recalled(s.remembered, w)
    requires (b.BeginRelease? ==> b.fd in t.letGo || MayStep(s, b)) && (b.Crash? ==> b.pid != s.sessions[id].pid)
    ensures id < s.next && AloneOk(s, id) && BenchOk(t, s.sessions[id])
  {
    var x := s.sessions[id];
    assert SessionOk(s, id);
    if !x.kind.PlaceOnly? {
      if x.phase.Asking? {
        BelongsStays(s.lease, b, x.fd, x.pid);
      } else {
        BacksStays(s.lease, b, s.letGo, t.letGo, x.fd, x.pid);
      }
    }
  }

  lemma LeaseStays(s: State, b: Lease.Step, t: State)
    requires BenchInv(s) && t.lease == Lease.Apply(s.lease, b) && (b.Open? ==> Lease.ValidClaim(b.claim))
    ensures Lease.Sound(t.lease) && forall w {:trigger Past(t.lease, w)} :: w in s.letGo ==> Past(t.lease, w)
  {
    Lease.StepKeeps(s.lease, b);
    Lease.StepSigned(s.lease, b);
    forall w | w in s.letGo ensures Past(t.lease, w) {
      assert Past(s.lease, w);
      PastStays(s.lease, b, w);
    }
  }

  /** No more is remembered than was. */
  ghost predicate NoNews(s: State, t: State) {
    forall pid :: pid in t.remembered ==> pid in s.remembered && t.remembered[pid] == s.remembered[pid]
  }

  lemma NoNewsRecalled(s: State, t: State)
    requires NoNews(s, t)
    ensures forall w :: Recalled(t.remembered, w) ==> Recalled(s.remembered, w)
  {
  }

  lemma MemoryStays(s: State, b: Lease.Step, t: State)
    requires BenchInv(s) && t.lease == Lease.Apply(s.lease, b) && s.letGo <= t.letGo && NoNews(s, t)
    requires (b.BeginRelease? ==> b.fd in t.letGo || MayStep(s, b)) && (b.Crash? ==> b.pid !in t.remembered)
    ensures forall pid {:trigger MemoryOk(t, pid)} :: MemoryOk(t, pid)
  {
    forall pid | pid in t.remembered ensures MemoryOk(t, pid) {
      assert MemoryOk(s, pid);
      BacksStays(s.lease, b, s.letGo, t.letGo, s.remembered[pid], pid);
    }
  }

  /** Everything else about the hardware locks is as it was, but for the sessions that are gone. */
  lemma LeaseStepKeeps(s: State, b: Lease.Step, t: State)
    requires BenchInv(s) && t.lease == Lease.Apply(s.lease, b) && (b.Open? ==> Lease.ValidClaim(b.claim)) && (b.BeginRelease? ==> MayStep(s, b))
    requires t.letGo == s.letGo && t.shared == s.shared && t.next == s.next && NoNews(s, t) && (b.Crash? ==> b.pid !in t.remembered)
    requires forall id :: id in t.sessions ==> id in s.sessions && t.sessions[id] == s.sessions[id] && (b.Crash? ==> b.pid != s.sessions[id].pid)
    ensures BenchInv(t)
  {
    LeaseStays(s, b, t);
    MemoryStays(s, b, t);
    NoNewsRecalled(s, t);
    forall id | id in t.sessions ensures SessionOk(t, id) { SessionStays(s, b, t, id); }
    forall i, j | UsesLock(t.sessions, i) && UsesLock(t.sessions, j) ensures UsesLock(s.sessions, i) && UsesLock(s.sessions, j) {}
  }

  lemma BenchKeeps(s: State, b: Lease.Step)
    requires BenchInv(s) && (b.Open? ==> Lease.ValidClaim(b.claim))
    ensures BenchInv(Apply(s, Bench(b)))
  {
    if MayStep(s, b) { LeaseStepKeeps(s, b, Apply(s, Bench(b))); }
  }

  lemma CrashKeepsBench(s: State, pid: int)
    requires BenchInv(s)
    ensures BenchInv(Apply(s, Crash(pid)))
  {
    LeaseStepKeeps(s, Lease.Crash(pid), Apply(s, Crash(pid)));
  }

  // ---- sessions begin ------------------------------------------------------------------------------

  /** One session more, the memories of the processes as they were. */
  ghost predicate Joined(s: State, t: State, x: Session) {
    && t.sessions == s.sessions[s.next := x] && t.next == s.next + 1
    && t.remembered == s.remembered && t.letGo == s.letGo
    && t.shared == s.shared + if x.kind.PlaceOnly? || OnLock(s, x.pid) == {} then {} else OnLock(s, x.pid) + {s.next}
  }

  /** No other session goes by this window, if it or the other one is asking for it. */
  ghost predicate Clear(s: State, x: Session) {
    forall id :: UsesLock(s.sessions, id) && (x.phase.Asking? || s.sessions[id].phase.Asking?) ==> s.sessions[id].fd != x.fd
  }

  lemma JoinKeeps(s: State, t: State, x: Session)
    requires BenchInv(s) && Joined(s, t, x) && Lease.Sound(t.lease) && (!x.kind.PlaceOnly? ==> Clear(s, x))
    requires forall id :: id in s.sessions ==> BenchOk(t, s.sessions[id])
    requires BenchOk(t, x) && (x.borrowed || x.phase.Asking? || x.kind.PlaceOnly?)
    requires forall pid {:trigger MemoryOk(t, pid)} :: MemoryOk(t, pid)
    requires forall w {:trigger Past(t.lease, w)} :: w in t.letGo ==> Past(t.lease, w)
    ensures BenchInv(t)
  {
    NowShared(s, t, x);
    forall id | id in t.sessions ensures SessionOk(t, id) {
      if id != s.next { assert SessionOk(s, id); }
    }
    forall i, j | UsesLock(t.sessions, i) && UsesLock(t.sessions, j) && t.sessions[i].phase.Asking? && t.sessions[i].fd == t.sessions[j].fd
      ensures i == j
    {
      if i != s.next { assert UsesLock(s.sessions, i); }
      if j != s.next { assert UsesLock(s.sessions, j); }
    }
  }

  lemma NowShared(s: State, t: State, x: Session)
    requires BenchInv(s) && Joined(s, t, x)
    ensures SharedOk(t) && forall id :: id in t.shared ==> id < t.next
  {
    forall id | id in OnLock(s, x.pid) ensures id < s.next { assert SessionOk(s, id); }
    forall i, j | UsesLock(t.sessions, i) && UsesLock(t.sessions, j) && i != j && t.sessions[i].pid == t.sessions[j].pid
      ensures i in t.shared
    {
      if i == s.next { assert j in OnLock(s, x.pid); }
      else if j == s.next { assert i in OnLock(s, x.pid); }
      else { assert UsesLock(s.sessions, i) && UsesLock(s.sessions, j); }
    }
  }

  /** A session that starts without asking the bench. */
  lemma AtOnce(s: State, t: State, x: Session)
    requires BenchInv(s) && Joined(s, t, x) && t.lease == s.lease && x.phase.Ready?
    requires x.kind.PlaceOnly? || (x.pid in s.remembered && x.fd == s.remembered[x.pid] && x.borrowed)
    ensures BenchInv(t)
  {
    assert MemoryOk(s, x.pid);
    forall id | id in s.sessions ensures BenchOk(t, s.sessions[id]) { assert SessionOk(s, id); }
    forall pid | pid in t.remembered ensures MemoryOk(t, pid) { assert MemoryOk(s, pid); }
    JoinKeeps(s, t, x);
  }

  lemma AskerStarts(s: State, t: State, x: Session, b: Lease.Step)
    requires BenchInv(s) && Joined(s, t, x) && b.Open? && b.claim.pid == x.pid && Lease.ValidClaim(b.claim)
    requires t.lease == Lease.Apply(s.lease, b) && !x.kind.PlaceOnly? && x.phase.Asking? && !x.borrowed && x.fd == s.lease.next
    ensures BenchInv(t)
  {
    NextIsFresh(s);
    LeaseStays(s, b, t);
    MemoryStays(s, b, t);
    forall id | id in s.sessions ensures BenchOk(t, s.sessions[id]) { SessionStays(s, b, t, id); }
    JoinKeeps(s, t, x);
  }

  /** No session and no memory goes by the window that would be opened next. */
  lemma NextIsFresh(s: State)
    requires BenchInv(s)
    ensures !Recalled(s.remembered, s.lease.next) && s.lease.next !in s.letGo
    ensures forall id :: UsesLock(s.sessions, id) ==> s.sessions[id].fd != s.lease.next
  {
    forall pid | pid in s.remembered ensures s.remembered[pid] != s.lease.next { assert MemoryOk(s, pid); }
    forall w | w in s.letGo ensures w != s.lease.next { assert Past(s.lease, w); }
    forall id | UsesLock(s.sessions, id) ensures s.sessions[id].fd != s.lease.next { assert SessionOk(s, id); }
  }

  /** What a start adds, and what it leaves alone. */
  ghost predicate Begins(s: State, t: State, kind: Kind, pid: int) {
    && s.next in t.sessions && Joined(s, t, t.sessions[s.next])
    && t.places == s.places && t.late == s.late && t.astray == s.astray
    && t.sessions[s.next].kind == kind && t.sessions[s.next].pid == pid && !t.sessions[s.next].phase.Releasing?
    && (t.sessions[s.next].borrowed <==> !kind.PlaceOnly? && pid in s.remembered)
  }

  lemma LockStarts(s: State, kind: Kind, user: string, place: string, claim: Claim, reclaim: bool)
    requires !kind.PlaceOnly?
    ensures Begins(s, Started(s, kind, user, place, claim, reclaim), kind, claim.pid)
  {
  }

  lemma StartJoins(s: State, step: Step)
    requires step.Start?
    ensures Begins(s, Apply(s, step), step.kind, step.claim.pid)
  {
    if !step.kind.PlaceOnly? { LockStarts(s, step.kind, step.user, step.place, step.claim, step.reclaim); }
  }

  lemma StartKeepsBench(s: State, step: Step)
    requires BenchInv(s) && step.Start? && SoundStep(step)
    ensures BenchInv(Apply(s, step))
  {
    var t := Apply(s, step);
    StartJoins(s, step);
    if step.kind.PlaceOnly? || step.claim.pid in s.remembered { AtOnce(s, t, t.sessions[s.next]); }
    else { AskerStarts(s, t, t.sessions[s.next], Lease.Open(Lease.Window, step.claim, step.reclaim)); }
  }

  // ---- sessions move on, and end ---------------------------------------------------------------------

  /** A session past asking for the bench moves on; the hardware locks do not. */
  ghost predicate Steps(s: State, t: State, id: Id) {
    && id in s.sessions && id in t.sessions && t.sessions == s.sessions[id := s.sessions[id].(phase := t.sessions[id].phase)]
    && t.lease == s.lease && t.next == s.next && t.remembered == s.remembered && t.letGo == s.letGo && t.shared == s.shared
    && !s.sessions[id].phase.Asking? && !t.sessions[id].phase.Asking?
    && (t.sessions[id].phase.Releasing? <==> s.sessions[id].phase.Releasing?)
  }

  /** The same, of a session that is not releasing the lock. */
  ghost predicate StepsInside(s: State, t: State, id: Id) { Steps(s, t, id) && !s.sessions[id].phase.Releasing? }

  lemma StepsKeep(s: State, t: State, id: Id)
    requires BenchInv(s) && Steps(s, t, id)
    ensures BenchInv(t)
  {
    forall i | i in t.sessions ensures SessionOk(t, i) { assert SessionOk(s, i); }
    forall pid | pid in t.remembered ensures MemoryOk(t, pid) { assert MemoryOk(s, pid); }
    forall i, j | UsesLock(t.sessions, i) && UsesLock(t.sessions, j) ensures UsesLock(s.sessions, i) && UsesLock(s.sessions, j) {}
  }

  lemma EnterKeepsBench(s: State, t: State, id: Id)
    requires BenchInv(s) && id in s.sessions && s.sessions[id].phase.Asking? && Lease.IsHeld(s.lease, s.sessions[id].fd)
    requires t == Put(s, id, Ready).(remembered := s.remembered[s.sessions[id].pid := s.sessions[id].fd])
    ensures BenchInv(t)
  {
    var x := s.sessions[id];
    assert SessionOk(s, id) && UsesLock(s.sessions, id);
    forall pid | pid in t.remembered ensures MemoryOk(t, pid) { assert MemoryOk(s, pid); }
    forall i, j | UsesLock(t.sessions, i) && UsesLock(t.sessions, j) ensures UsesLock(s.sessions, i) && UsesLock(s.sessions, j) {}
    forall i | i in t.sessions ensures SessionOk(t, i) {
      assert SessionOk(s, i);
      if i != id && UsesLock(s.sessions, i) && s.sessions[i].phase.Asking? { OnlyNews(s, t, x, s.sessions[i].fd); }
    }
  }

  lemma OnlyNews(s: State, t: State, x: Session, w: Lease.Fd)
    requires t.remembered == s.remembered[x.pid := x.fd] && !Recalled(s.remembered, w) && w != x.fd
    ensures !Recalled(t.remembered, w)
  {
  }

  /** A session goes away; its process may forget the lock object with it. */
  lemma EndKeepsBench(s: State, t: State, id: Id)
    requires BenchInv(s) && t.sessions == s.sessions - {id} && t.lease == s.lease && t.next == s.next
    requires t.letGo == s.letGo && t.shared == s.shared && NoNews(s, t)
    ensures BenchInv(t)
  {
    NoNewsRecalled(s, t);
    forall i | i in t.sessions ensures SessionOk(t, i) { assert SessionOk(s, i); }
    forall pid | pid in t.remembered ensures MemoryOk(t, pid) { assert MemoryOk(s, pid); }
    forall i, j | UsesLock(t.sessions, i) && UsesLock(t.sessions, j) ensures UsesLock(s.sessions, i) && UsesLock(s.sessions, j) {}
  }

  /** A session that is alone on its process's hardware lock goes by a window nobody else can let go. */
  lemma AloneElsewhere(s: State, id: Id, other: Id, w: Lease.Fd)
    requires BenchInv(s) && UsesLock(s.sessions, id) && UsesLock(s.sessions, other) && other != id
    requires Lease.IsHeld(s.lease, w) && Belongs(s.lease, w, s.sessions[id].pid)
    requires Alone(s, other) && !s.sessions[other].phase.Asking?
    ensures s.sessions[other].fd != w
  {
    assert SessionOk(s, other);
  }

  lemma ReleasedIsPast(lease: Lease.State, w: Lease.Fd)
    requires Lease.Sound(lease) && Lease.IsHeld(lease, w)
    ensures Past(Lease.Apply(lease, Lease.BeginRelease(w)), w)
  {
    Lease.BeginReleaseClears(lease, w);
    assert Lease.SessionOk(lease, w, lease.sessions[w]);
  }

  lemma LetGoKeeps(s: State, t: State, id: Id, w: Lease.Fd)
    requires BenchInv(s) && UsesLock(s.sessions, id) && s.sessions[id].phase.Leaving?
    requires Recalled(s.remembered, w) && Lease.IsHeld(s.lease, w) && Belongs(s.lease, w, s.sessions[id].pid)
    requires t == Put(s, id, Releasing(w, false)).(lease := Lease.Apply(s.lease, Lease.BeginRelease(w)), letGo := s.letGo + {w})
    ensures BenchInv(t)
  {
    var b := Lease.BeginRelease(w);
    LeaseStays(s, b, t);
    MemoryStays(s, b, t);
    ReleasedIsPast(s.lease, w);
    forall i | i in t.sessions ensures SessionOk(t, i) {
      SessionStays(s, b, t, i);
      if i != id && UsesLock(s.sessions, i) && Alone(s, i) && !s.sessions[i].phase.Asking? { AloneElsewhere(s, id, i, w); }
    }
    forall i, j | UsesLock(t.sessions, i) && UsesLock(t.sessions, j) ensures UsesLock(s.sessions, i) && UsesLock(s.sessions, j) {}
  }

  lemma BeginLetGoKeeps(s: State, id: Id)
    requires BenchInv(s) && UsesLock(s.sessions, id) && s.sessions[id].phase.Leaving?
    ensures BenchInv(BeginLetGo(s, id))
  {
    var pid := s.sessions[id].pid;
    if pid !in s.remembered {
      EndKeepsBench(s, Without(s, id), id);
    } else {
      var w := s.remembered[pid];
      assert MemoryOk(s, pid);
      if Lease.IsHeld(s.lease, w) { LetGoKeeps(s, BeginLetGo(s, id), id, w); }
      else if w !in s.lease.sessions { EndKeepsBench(s, BeginLetGo(s, id), id); }
    }
  }

  lemma BotchKeepsBench(s: State, t: State, id: Id, w: Lease.Fd)
    requires BenchInv(s) && id in s.sessions && s.sessions[id].phase.Releasing?
    requires t == Put(s, id, Releasing(w, true)).(lease := Lease.Apply(s.lease, Lease.Fail(w)))
    ensures BenchInv(t)
  {
    var u := s.(lease := Lease.Apply(s.lease, Lease.Fail(w)));
    LeaseStepKeeps(s, Lease.Fail(w), u);
    StepsKeep(u, t, id);
  }

  lemma FinishKeepsBench(s: State, id: Id, fault: bool)
    requires BenchInv(s) && id in s.sessions
    ensures BenchInv(Finished(s, id, fault))
  {
    FinishEnds(s, id, fault);
    if Finished(s, id, fault) != s { EndKeepsBench(s, Finished(s, id, fault), id); }
  }

  lemma FinishEnds(s: State, id: Id, fault: bool)
    requires id in s.sessions
    ensures var t := Finished(s, id, fault);
            t == s || (t.sessions == s.sessions - {id} && t.lease == s.lease && t.next == s.next && t.letGo == s.letGo && t.shared == s.shared && NoNews(s, t))
  {
  }

  lemma LockStepKeeps(s: State, step: Step)
    requires BenchInv(s) && (step.Enter? || step.LetGo? || step.Botch?) && step.id in s.sessions
    ensures BenchInv(Apply(s, step))
  {
    var t, id, x := Apply(s, step), step.id, s.sessions[step.id];
    if t != s {
      if step.Enter? { EnterKeepsBench(s, t, id); }
      else if step.LetGo? { BeginLetGoKeeps(s, id); }
      else { BotchKeepsBench(s, t, id, x.phase.window); }
    }
  }

  lemma CallStepSteps(s: State, step: Step)
    requires (step.Call? || step.Decide? || step.Answer? || step.EndBody?) && step.id in s.sessions
    ensures Apply(s, step) == s || StepsInside(s, Apply(s, step), step.id)
  {
  }

  lemma LeaveSteps(s: State, u: State, id: Id)
    requires id in s.sessions && u.sessions == s.sessions && !s.sessions[id].phase.Asking? && !s.sessions[id].phase.Releasing?
    requires u.lease == s.lease && u.next == s.next && u.remembered == s.remembered && u.letGo == s.letGo && u.shared == s.shared
    ensures StepsInside(s, Put(u, id, Leaving), id)
  {
  }

  lemma GiveUpSteps(s: State, step: Step)
    requires (step.Undo? || step.Free?) && step.id in s.sessions
    ensures Apply(s, step) == s || StepsInside(s, Apply(s, step), step.id)
  {
    var id := step.id;
    if Apply(s, step) != s { LeaveSteps(s, GivenUp(s, id, step.reaches), id); }
  }

  lemma ActKeepsBench(s: State, step: Step)
    requires BenchInv(s) && !step.Bench? && !step.Start? && !step.Crash? && !step.GrantLate? && step.id in s.sessions
    ensures BenchInv(Apply(s, step))
  {
    if step.Enter? || step.LetGo? || step.Botch? {
      LockStepKeeps(s, step);
    } else if step.Finish? {
      FinishKeepsBench(s, step.id, step.fault);
    } else if step.Interrupt? && !s.sessions[step.id].phase.Calling? {
      EndKeepsBench(s, Without(s, step.id), step.id);
    } else {
      if step.Interrupt? { LeaveSteps(s, Abandoned(s, step.id), step.id); }
      else if step.Undo? || step.Free? { GiveUpSteps(s, step); }
      else { CallStepSteps(s, step); }
      if Apply(s, step) != s { StepsKeep(s, Apply(s, step), step.id); }
    }
  }

  lemma GrantKeepsBench(s: State, id: Id)
    requires BenchInv(s)
    ensures BenchInv(Apply(s, GrantLate(id)))
  {
    var t := Apply(s, GrantLate(id));
    forall i | i in t.sessions ensures SessionOk(t, i) { assert SessionOk(s, i); }
    forall pid | pid in t.remembered ensures MemoryOk(t, pid) { assert MemoryOk(s, pid); }
  }

  lemma StepKeepsBench(s: State, step: Step)
    requires BenchInv(s) && SoundStep(step)
    ensures BenchInv(Apply(s, step))
  {
    match step
    case Bench(b) => BenchKeeps(s, b);
    case Start(_, _, _, _, _) => StartKeepsBench(s, step);
    case Crash(pid) => CrashKeepsBench(s, pid);
    case GrantLate(id) => GrantKeepsBench(s, id);
    case _ => if step.id in s.sessions { ActKeepsBench(s, step); }
  }

  // ---- the places, step by step ------------------------------------------------------------------------

  /** A move that neither takes a place nor loses one. */
  predicate Keeps(p: Phase, q: Phase) {
    (MayHave(p) ==> MayHave(q)) && (Done(p) ==> Done(q)) && (p.Undoing? ==> q.Undoing?)
  }

  ghost predicate Follows(s: State, t: State, id: Id) {
    && (id in t.sessions ==>
          && id < t.next
          && (id !in s.sessions ==> s.next <= id)
          && (id in s.sessions ==> t.sessions[id].user == s.sessions[id].user && t.sessions[id].place == s.sessions[id].place
                                   && Keeps(s.sessions[id].phase, t.sessions[id].phase)))
    && (id in s.sessions && id !in t.sessions ==> !MayHave(s.sessions[id].phase))
  }

  lemma PlacesFollow(s: State, t: State)
    requires PlaceInv(s) && t.places == s.places && t.late == s.late && t.astray == s.astray && s.next <= t.next
    requires forall id {:trigger Follows(s, t, id)} :: Follows(s, t, id)
    ensures PlaceInv(t)
  {
    forall id | id in t.sessions ensures id < t.next { assert Follows(s, t, id); }
    forall p | p in t.places ensures PlaceOk(t, p, t.places[p]) {
      assert PlaceOk(s, p, s.places[p]) && Follows(s, t, s.places[p].holder);
    }
    forall id | id in t.late ensures LateOk(t, id, t.late[id]) { assert LateOk(s, id, s.late[id]) && Follows(s, t, id); }
  }

  /** What a session knows of its own place. */
  lemma OwnPlace(s: State, id: Id)
    requires PlaceInv(s) && id in s.sessions
    ensures forall p :: p in s.places && s.places[p].holder == id ==> p == s.sessions[id].place && s.places[p].user == s.sessions[id].user
    ensures HasPlace(s, id) ==> MayHave(s.sessions[id].phase) || (Done(s.sessions[id].phase) && id in s.astray)
    ensures id in s.late ==> s.sessions[id].phase.Undoing? || Done(s.sessions[id].phase)
  {
    forall p | p in s.places && s.places[p].holder == id ensures p == s.sessions[id].place && s.places[p].user == s.sessions[id].user {
      assert PlaceOk(s, p, s.places[p]);
    }
    if HasPlace(s, id) { assert PlaceOk(s, s.sessions[id].place, s.places[s.sessions[id].place]); }
    if id in s.late { assert LateOk(s, id, s.late[id]); }
  }

  /** A session moves on with its grant, its loss of it, or a call left behind. */
  ghost predicate Moves(s: State, t: State, id: Id) {
    && id in s.sessions && t.sessions.Keys == s.sessions.Keys && t.sessions == s.sessions[id := s.sessions[id].(phase := t.sessions[id].phase)]
    && t.next == s.next && s.astray <= t.astray
    && (forall p :: p in t.places && p in s.places ==> t.places[p] == s.places[p])
    && (forall p :: p in t.places && (p !in s.places || t.places[p].holder == id) ==> PlaceOk(t, p, t.places[p]))
    && (forall i :: i in t.late && i in s.late && i != id ==> t.late[i] == s.late[i])
    && (forall i :: i in t.late && (i !in s.late || i == id) ==> LateOk(t, i, t.late[i]))
  }

  lemma MoveKeeps(s: State, t: State, id: Id)
    requires PlaceInv(s) && Moves(s, t, id)
    ensures PlaceInv(t)
  {
    forall p | p in t.places ensures PlaceOk(t, p, t.places[p]) {
      if p in s.places && t.places[p].holder != id { assert PlaceOk(s, p, s.places[p]); }
    }
    forall i | i in t.late ensures LateOk(t, i, t.late[i]) {
      if i in s.late && i != id { assert LateOk(s, i, s.late[i]); }
    }
  }

  lemma DecideMoves(s: State, id: Id)
    requires PlaceInv(s) && id in s.sessions && s.sessions[id].phase == Calling(false) && s.sessions[id].place !in s.places
    ensures Moves(s, Granted(Put(s, id, Calling(true)), id, Request(s.sessions[id].user, s.sessions[id].place)), id)
  {
    OwnPlace(s, id);
  }

  lemma DenialMoves(s: State, id: Id, phase: Phase)
    requires PlaceInv(s) && id in s.sessions && s.sessions[id].phase == Calling(false) && (phase.Undoing? || phase.Leaving?)
    ensures Moves(s, Put(s, id, phase).(late := s.late[id := Request(s.sessions[id].user, s.sessions[id].place)]), id)
  {
    OwnPlace(s, id);
  }

  lemma GiveUpMoves(s: State, id: Id, reaches: bool)
    requires PlaceInv(s) && id in s.sessions && (s.sessions[id].phase.Undoing? || s.sessions[id].phase.Freeing?)
    ensures Moves(s, Put(GivenUp(s, id, reaches), id, Leaving), id)
  {
    OwnPlace(s, id);
  }

  lemma AbandonMoves(s: State, id: Id)
    requires PlaceInv(s) && id in s.sessions && s.sessions[id].phase.Calling?
    ensures Moves(s, Put(Abandoned(s, id), id, Leaving), id)
  {
    OwnPlace(s, id);
    if s.sessions[id].phase == Calling(false) { DenialMoves(s, id, Leaving); }
  }

  lemma ClientStepKeeps(s: State, step: Step)
    requires PlaceInv(s) && (step.Decide? || step.Answer? || step.Undo? || step.Free?) && step.id in s.sessions
    ensures PlaceInv(Apply(s, step))
  {
    var t, id, x := Apply(s, step), step.id, s.sessions[step.id];
    if t != s {
      if step.Decide? { DecideMoves(s, id); MoveKeeps(s, t, id); }
      else if step.Undo? || step.Free? { GiveUpMoves(s, id, step.reaches); MoveKeeps(s, t, id); }
      else if x.phase == Calling(false) { DenialMoves(s, id, Undoing); MoveKeeps(s, t, id); }
      else { LocalKeeps(s, t, id); }
    }
  }

  /** A session moves on, or away, and neither takes a place nor loses one. */
  ghost predicate Local(s: State, t: State, id: Id) {
    && id in s.sessions && t.places == s.places && t.late == s.late && t.astray == s.astray && t.next == s.next
    && (|| (t.sessions == s.sessions - {id} && !MayHave(s.sessions[id].phase))
        || (id in t.sessions && t.sessions == s.sessions[id := s.sessions[id].(phase := t.sessions[id].phase)]
            && Keeps(s.sessions[id].phase, t.sessions[id].phase)))
  }

  lemma LocalKeeps(s: State, t: State, id: Id)
    requires PlaceInv(s) && Local(s, t, id)
    ensures PlaceInv(t)
  {
    forall i ensures Follows(s, t, i) {}
    PlacesFollow(s, t);
  }

  lemma SimpleLocal(s: State, step: Step)
    requires (step.Enter? || step.Call? || step.EndBody? || step.Botch?) && step.id in s.sessions
    ensures Apply(s, step) == s || Local(s, Apply(s, step), step.id)
  {
  }

  lemma LetGoLocal(s: State, id: Id)
    requires id in s.sessions && s.sessions[id].phase.Leaving?
    ensures BeginLetGo(s, id) == s || Local(s, BeginLetGo(s, id), id)
  {
  }

  lemma FinishLocal(s: State, id: Id, fault: bool)
    requires id in s.sessions
    ensures Finished(s, id, fault) == s || Local(s, Finished(s, id, fault), id)
  {
  }

  lemma ActKeepsPlaces(s: State, step: Step)
    requires PlaceInv(s) && !step.Bench? && !step.Start? && !step.Crash? && !step.GrantLate? && step.id in s.sessions
    ensures PlaceInv(Apply(s, step))
  {
    if step.Decide? || step.Answer? || step.Undo? || step.Free? {
      ClientStepKeeps(s, step);
    } else if step.Interrupt? && s.sessions[step.id].phase.Calling? {
      AbandonMoves(s, step.id);
      MoveKeeps(s, Apply(s, step), step.id);
    } else if Apply(s, step) != s {
      if step.LetGo? { LetGoLocal(s, step.id); }
      else if step.Finish? { FinishLocal(s, step.id, step.fault); }
      else if !step.Interrupt? { SimpleLocal(s, step); }
      LocalKeeps(s, Apply(s, step), step.id);
    }
  }

  lemma CrashKeepsPlaces(s: State, pid: int)
    requires PlaceInv(s)
    ensures PlaceInv(Apply(s, Crash(pid)))
  {
    var t := Apply(s, Crash(pid));
    forall p | p in t.places ensures PlaceOk(t, p, t.places[p]) { assert PlaceOk(s, p, s.places[p]); }
    forall id | id in t.late ensures LateOk(t, id, t.late[id]) {
      if id in s.late { assert LateOk(s, id, s.late[id]); }
    }
  }

  lemma GrantKeepsPlaces(s: State, id: Id)
    requires PlaceInv(s)
    ensures PlaceInv(Apply(s, GrantLate(id)))
  {
    var t := Apply(s, GrantLate(id));
    if id in s.late { assert LateOk(s, id, s.late[id]); }
    forall p | p in t.places ensures PlaceOk(t, p, t.places[p]) {
      if p in s.places { assert PlaceOk(s, p, s.places[p]); }
    }
    forall i | i in t.late ensures LateOk(t, i, t.late[i]) { assert LateOk(s, i, s.late[i]); }
  }

  lemma StepKeepsPlaces(s: State, step: Step)
    requires PlaceInv(s)
    ensures PlaceInv(Apply(s, step))
  {
    match step
    case Crash(pid) => CrashKeepsPlaces(s, pid);
    case GrantLate(id) => GrantKeepsPlaces(s, id);
    case Bench(_) => PlacesElsewhere(s, Apply(s, step));
    case Start(_, _, _, _, _) => StartFollows(s, step);
    case _ => if step.id in s.sessions { ActKeepsPlaces(s, step); }
  }

  lemma PlacesElsewhere(s: State, t: State)
    requires PlaceInv(s) && t.places == s.places && t.late == s.late && t.astray == s.astray && t.next == s.next && t.sessions == s.sessions
    ensures PlaceInv(t)
  {
    forall i ensures Follows(s, t, i) {}
    PlacesFollow(s, t);
  }

  lemma StartFollows(s: State, step: Step)
    requires PlaceInv(s) && step.Start?
    ensures PlaceInv(Apply(s, step))
  {
    var t := Apply(s, step);
    StartJoins(s, step);
    forall i ensures Follows(s, t, i) {}
    PlacesFollow(s, t);
  }

  lemma StepKeeps(s: State, step: Step)
    requires Inv(s) && SoundStep(step)
    ensures Inv(Apply(s, step))
  {
    StepKeepsBench(s, step);
    StepKeepsPlaces(s, step);
  }

  lemma {:induction false} RunKeeps(s: State, steps: seq<Step>)
    requires Inv(s) && SoundSteps(steps)
    ensures Inv(Run(s, steps))
    decreases |steps|
  {
    if steps != [] {
      StepKeeps(s, steps[0]);
      RunKeeps(Apply(s, steps[0]), steps[1..]);
    }
  }

  lemma InitialOk(contents: string)
    ensures Inv(Initial(contents))
  {
    Lease.InitialOk(contents);
  }

  /** Every state that any run reaches. */
  lemma {:induction false} Reachable(contents: string, steps: seq<Step>)
    requires SoundSteps(steps)
    ensures Inv(Run(Initial(contents), steps))
  {
    InitialOk(contents);
    RunKeeps(Initial(contents), steps);
  }
}
