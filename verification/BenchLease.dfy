/**
 The machine-global bench lease (lib/bench_lock.py) as a transition system. Every kernel call of every
 window, probe and check is a step of its own, taken in any order by any number of processes, and a
 process may die between any two of them. The flock belongs to an open file description; the holder
 line is ordinary file content.
 */
module BenchLease {
  import opened Prelude
  import opened PyText
  import opened HolderLine

  type Fd = nat

  /** Window: BenchLock.acquire. Check: acquire(write_holder=False). Probe: _flock_held. */
  datatype Kind = Window | Check | Probe

  /** How far one open description has come. */
  datatype Phase =
    | Opened              // file opened, flock not yet asked for
    | TurnedAway          // flock refused: read for the message, then close
    | Granted             // flock taken, nothing read yet
    | Refusing            // a live line without a flock behind it: close
    | Entering            // about to truncate
    | Writing(sent: nat)  // truncated, this many characters of the line written
    | Written             // whole line on disk, window not yet published
    | Held                // acquire has returned
    | Clearing            // release found the line to be its own
    | Unlocking           // release or probe about to drop the flock
    | Closing             // flock dropped, description still open

  /** `text` is the holder line with its newline, as built when the window opens. */
  datatype Session = Session(kind: Kind, claim: Claim, text: string, reclaim: bool, phase: Phase, dropped: bool)

  /**
   The lock file's text, the descriptions owning the flock, the next unused description, the open
   descriptions, and the windows kept alive by _LIVE_LOCKS. A missing file is an empty one.
   */
  datatype State = State(contents: string, locked: set<Fd>, next: Fd, sessions: map<Fd, Session>, live: set<Fd>)

  datatype Step =
    | Open(kind: Kind, claim: Claim, reclaim: bool)
    | TryFlock(fd: Fd)
    | Read(fd: Fd)
    | Truncate(fd: Fd)
    | Write(fd: Fd, n: nat)
    | Publish(fd: Fd)
    | BeginRelease(fd: Fd)
    | Unlock(fd: Fd)
    | Close(fd: Fd)
    | Fail(fd: Fd)    // an I/O error: an acquire gives up, a release skips its clearing
    | Drop(fd: Fd)    // the program forgets its BenchLock
    | Collect(fd: Fd) // the garbage collector closes a forgotten one
    | Crash(pid: int) // the kernel closes every description of a dead process

  function Text(c: Claim): string { Line(c) + "\n" }

  /** What readline sees: up to the first line break. */
  function FirstLine(text: string): (r: string)
    ensures r <= text
  {
    text[..LineEnd(text)]
  }

  function LineEnd(text: string): (n: nat)
    ensures n <= |text|
    ensures n < |text| ==> text[n] == '\n' || text[n] == '\r'
    ensures forall i :: 0 <= i < n ==> text[i] != '\n' && text[i] != '\r'
  {
    if text == "" || text[0] == '\n' || text[0] == '\r' then 0 else
      var n := LineEnd(text[1..]);
      assert forall i :: 0 < i < n + 1 ==> text[i] == text[1..][i - 1];
      n + 1
  }

  /** What acquire decides from the file once it has the flock. */
  predicate MayEnter(contents: string, reclaim: bool) { reclaim || !Live(contents) }

  /** What release asks before clearing: no pid in the line, or its own. */
  predicate ClearsLine(contents: string, pid: int) {
    var named := ParseHolder(FirstLine(contents)).pid;
    named == "" || named == IntText(pid)
  }

  datatype Verdict = Entered | RefusedBusy | RefusedStale

  function Judge(contents: string, flocked: bool, reclaim: bool): Verdict {
    if flocked then RefusedBusy else if MayEnter(contents, reclaim) then Entered else RefusedStale
  }

  // ---- steps; a step that is not enabled changes nothing ----------------------------------

  function At(s: State, fd: Fd, phase: Phase): State
    requires fd in s.sessions
  {
    s.(sessions := s.sessions[fd := s.sessions[fd].(phase := phase)])
  }

  function Gone(s: State, fds: set<Fd>): State {
    s.(sessions := s.sessions - fds, locked := s.locked - fds, live := s.live - fds)
  }

  function SessionsOf(s: State, pid: int): set<Fd> {
    set fd | fd in s.sessions && s.sessions[fd].claim.pid == pid
  }

  ghost predicate ValidClaim(c: Claim) { c.pid >= 0 && IsWord(c.since) }

  /** The phase a read, a release or a failure leads to, if it is enabled. */
  function AfterRead(x: Session, contents: string): Phase {
    if x.phase.Granted? && x.kind.Window? then (if MayEnter(contents, x.reclaim) then Entering else Refusing) else x.phase
  }

  function AfterRelease(x: Session, contents: string): Phase {
    if !x.phase.Held? then x.phase else if ClearsLine(contents, x.claim.pid) then Clearing else Unlocking
  }

  predicate Acquiring(p: Phase) {
    p.Opened? || p.Granted? || p.Entering? || p.Writing? || p.Written?
  }

  predicate Closable(x: Session) {
    x.phase.TurnedAway? || x.phase.Refusing? || x.phase.Closing? || (x.phase.Granted? && x.kind.Check?)
  }

  function Apply(s: State, step: Step): State {
    match step
    case Open(kind, claim, reclaim) =>
      s.(next := s.next + 1, sessions := s.sessions[s.next := Session(kind, claim, Text(claim), reclaim, Opened, false)])
    case Crash(pid) => Gone(s, SessionsOf(s, pid))
    case _ => if step.fd in s.sessions then Act(s, step, s.sessions[step.fd]) else s
  }

  function Act(s: State, step: Step, x: Session): State
    requires !step.Open? && !step.Crash? && step.fd in s.sessions && x == s.sessions[step.fd]
  {
    var fd := step.fd;
    match step
    case TryFlock(_) =>
      if !x.phase.Opened? then s
      else if s.locked - {fd} == {} then At(s, fd, Granted).(locked := s.locked + {fd})
      else At(s, fd, TurnedAway)
    case Read(_) => At(s, fd, AfterRead(x, s.contents))
    case Truncate(_) =>
      if x.phase.Entering? then At(s, fd, Writing(0)).(contents := "")
      else if x.phase.Clearing? then At(s, fd, Unlocking).(contents := "")
      else s
    case Write(_, n) =>
      if x.phase.Writing? && x.phase.sent + n <= |x.text| then
        var sent := x.phase.sent + n;
        At(s, fd, if sent == |x.text| then Written else Writing(sent)).(contents := s.contents + x.text[x.phase.sent..sent])
      else s
    case Publish(_) => if x.phase.Written? then At(s, fd, Held).(live := s.live + {fd}) else s
    case BeginRelease(_) => At(s, fd, AfterRelease(x, s.contents))
    case Unlock(_) =>
      if x.phase.Unlocking? || (x.phase.Granted? && x.kind.Probe?) then At(s, fd, Closing).(locked := s.locked - {fd}) else s
    case Close(_) => if Closable(x) then Gone(s, {fd}) else s
    case Fail(_) => if Acquiring(x.phase) then Gone(s, {fd}) else if x.phase.Clearing? then At(s, fd, Unlocking) else s
    case Drop(_) => s.(sessions := s.sessions[fd := x.(dropped := true)])
    case Collect(_) => if x.phase.Held? && x.dropped && fd !in s.live then Gone(s, {fd}) else s
  }

  function Run(s: State, steps: seq<Step>): State
    decreases |steps|
  {
    if steps == [] then s else Run(Apply(s, steps[0]), steps[1..])
  }

  function Initial(contents: string): State { State(contents, {}, 0, map[], {}) }

  /** Every process opens windows with a nonnegative pid and a since stamp without blanks. */
  ghost predicate SoundSteps(steps: seq<Step>) {
    forall i :: 0 <= i < |steps| && steps[i].Open? ==> ValidClaim(steps[i].claim)
  }

  /** Who may close: one that was turned away, refused or unlocked, and a check as soon as it has the flock. */
  lemma ClosesOnly(s: State, fd: Fd)
    requires fd in s.sessions
    ensures var x := s.sessions[fd];
            Apply(s, Close(fd)) ==
            if x.phase == TurnedAway || x.phase == Refusing || x.phase == Closing || (x.phase == Granted && x.kind == Check)
            then Gone(s, {fd}) else s
  {
  }

  /** Who may unlock: one whose release has come so far, and a probe as soon as it has the flock. */
  lemma UnlocksOnly(s: State, fd: Fd)
    requires fd in s.sessions
    ensures var x := s.sessions[fd];
            Apply(s, Unlock(fd)) ==
            if x.phase == Unlocking || (x.phase == Granted && x.kind == Probe) then At(s, fd, Closing).(locked := s.locked - {fd}) else s
  {
  }

  // ---- the invariant ------------------------------------------------------------------------

  predicate HasFlock(p: Phase) {
    !p.Opened? && !p.TurnedAway? && !p.Closing?
  }

  /** The file shows this session's line whole. */
  predicate LineUp(p: Phase) { p.Written? || p.Held? || p.Clearing? }

  /** The phases of a window that has decided to write. */
  predicate Touches(p: Phase) { p.Entering? || p.Writing? || p.Written? || p.Held? || p.Clearing? }

  /** What a session in this phase knows of the file. */
  ghost predicate Shows(x: Session, contents: string) {
    && (x.phase.Writing? ==> x.phase.sent <= |x.text| && contents == x.text[..x.phase.sent])
    && (LineUp(x.phase) ==> contents == x.text)
  }

  ghost predicate SessionOk(s: State, fd: Fd, x: Session) {
    && fd < s.next
    && (fd in s.locked <==> HasFlock(x.phase))
    && Shows(x, s.contents)
    && (x.phase.Held? ==> fd in s.live)
    && (Touches(x.phase) ==> x.kind.Window?)
  }

  ghost predicate Inv(s: State) {
    && s.locked <= s.sessions.Keys && s.live <= s.sessions.Keys
    && (forall a, b :: a in s.locked && b in s.locked ==> a == b)
    && (forall fd :: fd in s.sessions ==> SessionOk(s, fd, s.sessions[fd]))
  }

  /** What a session's own step leaves true of the session itself. */
  ghost predicate Moves(s: State, t: State, fd: Fd) {
    && fd in s.sessions && fd in t.sessions
    && t.sessions == s.sessions[fd := t.sessions[fd]] && t.next == s.next
    && t.live - {fd} == s.live - {fd} && t.locked - {fd} == s.locked - {fd}
    && (t.contents != s.contents ==> fd in s.locked)
    && (fd in t.locked ==> s.locked - {fd} == {})
    && SessionOk(t, fd, t.sessions[fd])
  }

  /** One session moves on: nobody else is disturbed, because only the flock owner touches the file. */
  lemma MoveKeeps(s: State, t: State, fd: Fd)
    requires Inv(s) && Moves(s, t, fd)
    ensures Inv(t)
  {
    forall other | other in t.sessions && other != fd ensures SessionOk(t, other, t.sessions[other]) {
      assert t.sessions[other] == s.sessions[other] && SessionOk(s, other, s.sessions[other]);
      assert other in t.locked <==> other in t.locked - {fd};
      assert other in s.locked <==> other in s.locked - {fd};
      assert other in t.live <==> other in t.live - {fd};
      assert other in s.live <==> other in s.live - {fd};
    }
    forall a, b | a in t.locked && b in t.locked ensures a == b {
      assert a == fd || a in s.locked - {fd};
      assert b == fd || b in s.locked - {fd};
    }
    forall a | a in t.locked ensures a in t.sessions {
      assert a == fd || a in s.locked - {fd};
    }
    forall a | a in t.live ensures a in t.sessions {
      assert a == fd || a in s.live - {fd};
    }
  }

  lemma GoneKeeps(s: State, fds: set<Fd>)
    requires Inv(s)
    ensures Inv(Gone(s, fds))
  {
    var t := Gone(s, fds);
    forall fd | fd in t.sessions ensures SessionOk(t, fd, t.sessions[fd]) {
      assert SessionOk(s, fd, s.sessions[fd]);
    }
  }

  lemma OpenKeeps(s: State, kind: Kind, claim: Claim, reclaim: bool)
    requires Inv(s)
    ensures Inv(Apply(s, Open(kind, claim, reclaim)))
  {
    var t := Apply(s, Open(kind, claim, reclaim));
    assert s.next !in s.locked;
    forall fd | fd in t.sessions ensures SessionOk(t, fd, t.sessions[fd]) {
      if fd != s.next { assert SessionOk(s, fd, s.sessions[fd]); }
    }
  }

  lemma KernelStepMoves(s: State, step: Step)
    requires Inv(s) && (step.TryFlock? || step.Unlock?) && step.fd in s.sessions
    ensures Moves(s, Apply(s, step), step.fd)
  {
    assert SessionOk(s, step.fd, s.sessions[step.fd]);
  }

  lemma ReadStepMoves(s: State, step: Step)
    requires Inv(s) && (step.Read? || step.BeginRelease?) && step.fd in s.sessions
    ensures Moves(s, Apply(s, step), step.fd)
  {
    assert SessionOk(s, step.fd, s.sessions[step.fd]);
  }

  lemma TruncateMoves(s: State, step: Step)
    requires Inv(s) && step.Truncate? && step.fd in s.sessions
    ensures Moves(s, Apply(s, step), step.fd)
  {
    assert SessionOk(s, step.fd, s.sessions[step.fd]);
  }

  lemma WriteMoves(s: State, step: Step)
    requires Inv(s) && step.Write? && step.fd in s.sessions
    ensures Moves(s, Apply(s, step), step.fd)
  {
    var x := s.sessions[step.fd];
    assert SessionOk(s, step.fd, x);
    if x.phase.Writing? && x.phase.sent + step.n <= |x.text| {
      var sent := x.phase.sent + step.n;
    }
  }

  lemma ProgramStepMoves(s: State, step: Step)
    requires Inv(s) && (step.Publish? || step.Drop?) && step.fd in s.sessions
    ensures Moves(s, Apply(s, step), step.fd)
  {
    assert SessionOk(s, step.fd, s.sessions[step.fd]);
  }

  lemma EndStepKeeps(s: State, step: Step)
    requires Inv(s) && (step.Close? || step.Fail? || step.Collect?) && step.fd in s.sessions
    ensures Inv(Apply(s, step))
  {
    var x := s.sessions[step.fd];
    assert SessionOk(s, step.fd, x);
    GoneKeeps(s, {step.fd});
    if step.Fail? && x.phase.Clearing? { MoveKeeps(s, Apply(s, step), step.fd); }
  }

  lemma ActKeeps(s: State, step: Step)
    requires Inv(s) && !step.Open? && !step.Crash? && step.fd in s.sessions
    ensures Inv(Apply(s, step))
  {
    if step.Close? || step.Fail? || step.Collect? {
      EndStepKeeps(s, step);
    } else {
      if step.TryFlock? || step.Unlock? { KernelStepMoves(s, step); }
      else if step.Write? { WriteMoves(s, step); }
      else if step.Publish? || step.Drop? { ProgramStepMoves(s, step); }
      else if step.Truncate? { TruncateMoves(s, step); }
      else { ReadStepMoves(s, step); }
      MoveKeeps(s, Apply(s, step), step.fd);
    }
  }

  lemma StepKeeps(s: State, step: Step)
    requires Inv(s)
    ensures Inv(Apply(s, step))
  {
    match step
    case Open(kind, claim, reclaim) => OpenKeeps(s, kind, claim, reclaim);
    case Crash(pid) => GoneKeeps(s, SessionsOf(s, pid));
    case _ => if step.fd in s.sessions { ActKeeps(s, step); }
  }

  /** The session's text is the line of its claim. */
  ghost predicate Signs(x: Session) { ValidClaim(x.claim) && x.text == Text(x.claim) }

  ghost predicate Signed(s: State) {
    forall fd {:trigger Signs(s.sessions[fd])} :: fd in s.sessions ==> Signs(s.sessions[fd])
  }

  lemma StepSigned(s: State, step: Step)
    requires Signed(s) && (step.Open? ==> ValidClaim(step.claim))
    ensures Signed(Apply(s, step))
  {
    var t := Apply(s, step);
    forall fd | fd in t.sessions ensures Signs(t.sessions[fd]) {
      SameClaim(s, step, fd);
      if fd in s.sessions { assert Signs(s.sessions[fd]); }
    }
  }

  lemma SameClaim(s: State, step: Step, fd: Fd)
    requires fd in Apply(s, step).sessions
    ensures if step.Open? && fd == s.next
            then Apply(s, step).sessions[fd] == Session(step.kind, step.claim, Text(step.claim), step.reclaim, Opened, false)
            else fd in s.sessions && Apply(s, step).sessions[fd].claim == s.sessions[fd].claim
                 && Apply(s, step).sessions[fd].text == s.sessions[fd].text
  {
    if !step.Open? && !step.Crash? && step.fd in s.sessions { ActKeepsClaim(s, step, s.sessions[step.fd], fd); }
  }

  lemma ActKeepsClaim(s: State, step: Step, x: Session, fd: Fd)
    requires !step.Open? && !step.Crash? && step.fd in s.sessions && x == s.sessions[step.fd] && fd in Act(s, step, x).sessions
    ensures var t := Act(s, step, x);
            fd in s.sessions && t.sessions[fd].claim == s.sessions[fd].claim && t.sessions[fd].text == s.sessions[fd].text
  {
  }

  ghost predicate Sound(s: State) { Inv(s) && Signed(s) }

  lemma {:induction false} RunKeeps(s: State, steps: seq<Step>)
    requires Sound(s) && SoundSteps(steps)
    ensures Sound(Run(s, steps))
    decreases |steps|
  {
    if steps != [] {
      StepKeeps(s, steps[0]);
      StepSigned(s, steps[0]);
      RunKeeps(Apply(s, steps[0]), steps[1..]);
    }
  }

  lemma InitialOk(contents: string)
    ensures Sound(Initial(contents))
  {
  }

  // ---- safety over every run ------------------------------------------------------------------

  predicate IsHeld(s: State, fd: Fd) { fd in s.sessions && s.sessions[fd].phase.Held? }

  /** bench_state: held, stale or free. */
  function BenchState(s: State): string {
    if s.locked != {} then "held" else if Live(FirstLine(s.contents)) then "stale" else "free"
  }

  lemma HeldOwns(s: State, fd: Fd)
    requires Inv(s) && IsHeld(s, fd)
    ensures s.locked == {fd} && s.contents == s.sessions[fd].text && fd in s.live
    ensures forall other: Fd :: IsHeld(s, other) ==> other == fd
  {
    assert SessionOk(s, fd, s.sessions[fd]);
    forall other: Fd | IsHeld(s, other) ensures other == fd { assert SessionOk(s, other, s.sessions[other]); }
  }

  /**
   Whatever the processes do, at most one description owns the flock, at most one window is held, and
   while it is held the file is exactly the line its owner wrote and the bench reads as held.
   */
  lemma {:induction false} OneWindow(contents: string, steps: seq<Step>)
    requires SoundSteps(steps)
    ensures var s := Run(Initial(contents), steps);
            && (forall a, b :: a in s.locked && b in s.locked ==> a == b)
            && (forall a: Fd, b: Fd :: IsHeld(s, a) && IsHeld(s, b) ==> a == b)
            && (forall a: Fd :: IsHeld(s, a) ==> s.contents == Text(s.sessions[a].claim) && s.locked == {a} && BenchState(s) == "held")
  {
    var s := Run(Initial(contents), steps);
    InitialOk(contents);
    RunKeeps(Initial(contents), steps);
    forall a: Fd | IsHeld(s, a) ensures s.contents == Text(s.sessions[a].claim) && s.locked == {a} {
      HeldOwns(s, a);
      assert Signs(s.sessions[a]);
    }
  }

  /** Only the description owning the flock changes the file. */
  lemma OnlyOwnerWrites(s: State, step: Step)
    requires Inv(s) && Apply(s, step).contents != s.contents
    ensures !step.Open? && !step.Crash? && s.locked == {step.fd} && s.sessions[step.fd].kind.Window?
    ensures s.sessions[step.fd].phase.Entering? || s.sessions[step.fd].phase.Clearing? || s.sessions[step.fd].phase.Writing?
  {
    assert SessionOk(s, step.fd, s.sessions[step.fd]);
  }

  /** The two steps that can end a window: its own release, or the death of its process. */
  predicate Ends(step: Step, fd: Fd, pid: int) { step == BeginRelease(fd) || step == Crash(pid) }

  lemma HeldStep(s: State, step: Step, fd: Fd)
    requires Inv(s) && IsHeld(s, fd) && !Ends(step, fd, s.sessions[fd].claim.pid)
    ensures var t := Apply(s, step);
            IsHeld(t, fd) && t.sessions[fd].claim == s.sessions[fd].claim && t.contents == s.contents
  {
    HeldOwns(s, fd);
    if Apply(s, step).contents != s.contents { OnlyOwnerWrites(s, step); }
  }

  /**
   A held window stays held, and its line stays in the file, through any steps of anybody, garbage
   collection of a forgotten lock included, until it releases or its process dies.
   */
  lemma {:induction false} HeldStays(s: State, steps: seq<Step>, fd: Fd)
    requires Inv(s) && IsHeld(s, fd)
    requires forall i :: 0 <= i < |steps| ==> !Ends(steps[i], fd, s.sessions[fd].claim.pid)
    ensures var t := Run(s, steps);
            IsHeld(t, fd) && t.contents == s.contents && forall other: Fd :: IsHeld(t, other) ==> other == fd
    decreases |steps|
  {
    if steps == [] {
      HeldOwns(s, fd);
    } else {
      HeldStep(s, steps[0], fd);
      StepKeeps(s, steps[0]);
      HeldStays(Apply(s, steps[0]), steps[1..], fd);
    }
  }

  // ---- a stale line stays until somebody reclaims it ------------------------------------------

  /** A session that has not decided to write, or has decided to and may reclaim. */
  predicate Awaits(x: Session) { !x.phase.Writing? && !LineUp(x.phase) && (x.phase.Entering? ==> x.reclaim) }

  /** A line claims an owner, and nobody has touched it yet. */
  predicate Waiting(s: State) {
    Live(s.contents) && forall fd :: fd in s.sessions ==> Awaits(s.sessions[fd])
  }

  /** The one step that clears somebody else's line: the truncate of an acquire that may reclaim. */
  predicate Reclaims(s: State, step: Step) {
    step.Truncate? && step.fd in s.sessions && s.sessions[step.fd].phase.Entering? && s.sessions[step.fd].reclaim
  }

  /** Some step of the run reclaims, and up to it the file is what it was. */
  ghost predicate ReclaimedOnTheWay(s: State, steps: seq<Step>) {
    exists k: nat :: k < |steps| && Reclaims(Run(s, steps[..k]), steps[k]) && Run(s, steps[..k]).contents == s.contents
  }

  lemma ActsOnItself(s: State, step: Step)
    requires !step.Open? && !step.Crash? && step.fd in s.sessions
    ensures var t := Apply(s, step);
            && t.sessions.Keys <= s.sessions.Keys
            && forall fd :: fd in t.sessions && fd != step.fd ==> t.sessions[fd] == s.sessions[fd]
  {
  }

  lemma ReadAwaits(x: Session, contents: string)
    requires Live(contents) && Awaits(x)
    ensures Awaits(x.(phase := AfterRead(x, contents)))
  {
  }

  lemma WaitingAct(s: State, step: Step, x: Session)
    requires !step.Open? && !step.Crash? && step.fd in s.sessions && x == s.sessions[step.fd]
    requires Awaits(x) && !Reclaims(s, step) && Awaits(x.(phase := AfterRead(x, s.contents)))
    ensures var t := Act(s, step, x); t.contents == s.contents && (step.fd in t.sessions ==> Awaits(t.sessions[step.fd]))
  {
  }

  lemma WaitsOn(s: State, t: State, fd: Fd)
    requires Waiting(s) && t.contents == s.contents && t.sessions.Keys <= s.sessions.Keys
    requires fd in t.sessions ==> Awaits(t.sessions[fd])
    requires forall other :: other in t.sessions && other != fd ==> t.sessions[other] == s.sessions[other]
    ensures Waiting(t)
  {
  }

  lemma WaitingStep(s: State, step: Step)
    requires Waiting(s) && !Reclaims(s, step)
    ensures Waiting(Apply(s, step)) && Apply(s, step).contents == s.contents
  {
    if !step.Open? && !step.Crash? && step.fd in s.sessions {
      ActsOnItself(s, step);
      ReadAwaits(s.sessions[step.fd], s.contents);
      WaitingAct(s, step, s.sessions[step.fd]);
      WaitsOn(s, Apply(s, step), step.fd);
    }
  }

  lemma {:induction false} RunPrefix(s: State, steps: seq<Step>, k: nat)
    requires k < |steps|
    ensures Run(s, steps[..k + 1]) == Run(Apply(s, steps[0]), steps[1..][..k])
  {
    assert steps[..k + 1][1..] == steps[1..][..k];
  }

  lemma {:induction false} ReclaimedLater(s: State, steps: seq<Step>)
    requires steps != [] && Apply(s, steps[0]).contents == s.contents && ReclaimedOnTheWay(Apply(s, steps[0]), steps[1..])
    ensures ReclaimedOnTheWay(s, steps)
  {
    var t := Apply(s, steps[0]);
    var k: nat :| k < |steps[1..]| && Reclaims(Run(t, steps[1..][..k]), steps[1..][k]) && Run(t, steps[1..][..k]).contents == t.contents;
    RunPrefix(s, steps, k);
    assert steps[k + 1] == steps[1..][k];
  }

  /**
   Over any run whatever, with reclaiming acquires that are turned away, fail, die or wait among the rest, a
   line that claims an owner stays, and everybody keeps waiting, until a reclaiming acquire truncates it.
   */
  lemma {:induction false} StaleStays(s: State, steps: seq<Step>)
    requires Waiting(s)
    ensures ReclaimedOnTheWay(s, steps) || (Waiting(Run(s, steps)) && Run(s, steps).contents == s.contents)
    decreases |steps|
  {
    if steps == [] {
    } else if Reclaims(s, steps[0]) {
      assert steps[..0] == [] && Run(s, steps[..0]) == s;
    } else {
      WaitingStep(s, steps[0]);
      StaleStays(Apply(s, steps[0]), steps[1..]);
      if ReclaimedOnTheWay(Apply(s, steps[0]), steps[1..]) { ReclaimedLater(s, steps); }
    }
  }

  lemma UnlockedWaits(s: State)
    requires Inv(s) && s.locked == {} && Live(s.contents)
    ensures Waiting(s)
  {
    forall fd: Fd | fd in s.sessions ensures Awaits(s.sessions[fd]) { assert SessionOk(s, fd, s.sessions[fd]); }
  }

  /**
   Whenever a line that claims an owner stands in the file and nobody has the flock, wherever in its acquire
   or release the owner died: every acquire without reclaim is refused as stale, and it stays so through any
   run, with no window held, until a reclaiming acquire truncates the file.
   */
  lemma {:induction false} StaleUntilReclaimed(contents: string, before: seq<Step>, after: seq<Step>)
    requires SoundSteps(before)
    ensures var s := Run(Initial(contents), before);
            var t := Run(s, after);
            s.locked == {} && Live(s.contents) ==>
              && Judge(s.contents, s.locked != {}, false).RefusedStale?
              && (ReclaimedOnTheWay(s, after)
                  || (t.contents == s.contents && !MayEnter(t.contents, false) && forall fd: Fd :: !IsHeld(t, fd)))
  {
    var s := Run(Initial(contents), before);
    InitialOk(contents);
    RunKeeps(Initial(contents), before);
    if s.locked == {} && Live(s.contents) {
      UnlockedWaits(s);
      StaleStays(s, after);
    }
  }

  lemma CrashUnlocks(s: State, fd: Fd)
    requires Inv(s) && IsHeld(s, fd)
    ensures var t := Apply(s, Crash(s.sessions[fd].claim.pid)); t.contents == s.sessions[fd].text && t.locked == {} && Inv(t)
  {
    HeldOwns(s, fd);
    StepKeeps(s, Crash(s.sessions[fd].claim.pid));
  }

  /**
   After the owner of a held window dies, an acquire without reclaim is refused as stale exactly when the
   owner's cleaned profile does not begin with "released"; and then, whoever is open and whatever runs, the
   line stays, every such acquire is still refused and no window is held until a reclaiming one truncates.
   */
  lemma {:induction false} CrashLeavesStale(s: State, fd: Fd, steps: seq<Step>)
    requires Sound(s) && IsHeld(s, fd)
    ensures var c := s.sessions[fd].claim;
            var dead := Apply(s, Crash(c.pid));
            var t := Run(dead, steps);
            var stale := Judge(dead.contents, dead.locked != {}, false).RefusedStale?;
            && (stale <==> !StartsWith(Lower(Clean(c.profile, "unknown")), RELEASED))
            && (stale && !ReclaimedOnTheWay(dead, steps) ==>
                  t.contents == s.contents && !MayEnter(t.contents, false) && forall other: Fd :: !IsHeld(t, other))
  {
    var x := s.sessions[fd];
    assert Signs(x);
    LineLive(x.claim);
    CrashUnlocks(s, fd);
    HeldOwns(s, fd);
    if Live(x.text) {
      UnlockedWaits(Apply(s, Crash(x.claim.pid)));
      StaleStays(Apply(s, Crash(x.claim.pid)), steps);
    }
  }

  /** Whoever is about to truncate found the file as it is now: without an owner, or may reclaim. */
  ghost predicate EnterRightly(s: State) {
    forall fd :: fd in s.sessions && s.sessions[fd].phase.Entering? ==> MayEnter(s.contents, s.sessions[fd].reclaim)
  }

  lemma EntersRightly(s: State, step: Step, x: Session)
    requires !step.Open? && !step.Crash? && step.fd in s.sessions && x == s.sessions[step.fd]
    requires x.phase.Entering? ==> MayEnter(s.contents, x.reclaim)
    ensures var t := Act(s, step, x);
            step.fd in t.sessions && t.sessions[step.fd].phase.Entering? ==> MayEnter(t.contents, t.sessions[step.fd].reclaim)
  {
    if step.fd in Act(s, step, x).sessions && Act(s, step, x).sessions[step.fd].phase.Entering? {
      assert x.phase.Granted? || x.phase.Entering?;
    }
  }

  lemma EnterRightlyStep(s: State, step: Step)
    requires Inv(s) && EnterRightly(s)
    ensures EnterRightly(Apply(s, step))
  {
    var t := Apply(s, step);
    forall fd | fd in t.sessions && t.sessions[fd].phase.Entering? ensures MayEnter(t.contents, t.sessions[fd].reclaim) {
      if !step.Open? && !step.Crash? && step.fd in s.sessions && step.fd == fd {
        EntersRightly(s, step, s.sessions[fd]);
      } else {
        assert SessionOk(s, fd, s.sessions[fd]);
        if t.contents != s.contents { OnlyOwnerWrites(s, step); }
      }
    }
  }

  lemma {:induction false} EnterRightlyRun(s: State, steps: seq<Step>)
    requires Inv(s) && EnterRightly(s)
    ensures EnterRightly(Run(s, steps))
    decreases |steps|
  {
    if steps != [] {
      StepKeeps(s, steps[0]);
      EnterRightlyStep(s, steps[0]);
      EnterRightlyRun(Apply(s, steps[0]), steps[1..]);
    }
  }

  /**
   In no interleaving does a window without reclaim overwrite a line that claims an owner: in every reachable
   state, a step that changes such a file is a reclaim, or the flock owner's, who is writing or clearing its
   own line.
   */
  lemma {:induction false} LiveLineSafe(contents: string, steps: seq<Step>, step: Step)
    requires SoundSteps(steps)
    ensures var s := Run(Initial(contents), steps);
            Live(s.contents) && Apply(s, step).contents != s.contents ==>
              || Reclaims(s, step)
              || (!step.Open? && !step.Crash? && step.fd in s.sessions && s.locked == {step.fd}
                  && (s.sessions[step.fd].phase.Writing? || s.sessions[step.fd].phase.Clearing?)
                  && s.contents <= s.sessions[step.fd].text)
  {
    var s := Run(Initial(contents), steps);
    InitialOk(contents);
    RunKeeps(Initial(contents), steps);
    EnterRightlyRun(Initial(contents), steps);
    if Live(s.contents) && Apply(s, step).contents != s.contents {
      OnlyOwnerWrites(s, step);
      assert SessionOk(s, step.fd, s.sessions[step.fd]);
    }
  }

  // ---- the holder line's first line -----------------------------------------------------------

  lemma {:induction false} JoinBreaks(words: seq<string>, i: nat)
    requires (forall w :: w in words ==> IsWord(w)) && i < |Join(words, " ")|
    ensures Join(words, " ")[i] != '\n' && Join(words, " ")[i] != '\r'
  {
    if |words| == 1 {
      assert IsWord(words[0]);
    } else {
      var tail := Join(words[1..], " ");
      assert Join(words, " ") == words[0] + (" " + tail);
      assert IsWord(words[0]);
      if i > |words[0]| { JoinBreaks(words[1..], i - |words[0]| - 1); }
    }
  }

  lemma {:induction false} LineEndIs(text: string, n: nat)
    requires n < |text| && text[n] == '\n' && forall i :: 0 <= i < n ==> text[i] != '\n' && text[i] != '\r'
    ensures LineEnd(text) == n
  {
    if n > 0 { LineEndIs(text[1..], n - 1); }
  }

  /** The line is the whole first line, so reading one line or the whole file parses the same holder. */
  lemma FirstLineOfText(c: Claim)
    requires ValidClaim(c)
    ensures FirstLine(Text(c)) == Line(c)
    ensures ParseHolder(FirstLine(Text(c))) == ParseHolder(Text(c)) && ParseHolder(Text(c)).pid == Decimal(c.pid)
    ensures Live(FirstLine(Text(c))) == Live(Text(c))
  {
    var who, pid, purpose := Clean(c.profile, "unknown"), IntText(c.pid), Clean(c.purpose, "ad-hoc");
    var task, host := Clean(c.task, "-"), Clean(c.host, "unknown");
    ClaimWords(c);
    WordsAreWords(who, pid, purpose, c.since, task, host);
    forall i | 0 <= i < |Line(c)| ensures Text(c)[i] != '\n' && Text(c)[i] != '\r' {
      JoinBreaks(Words(who, pid, purpose, c.since, task, host), i);
    }
    LineEndIs(Text(c), |Line(c)|);
    LineStarts(c);
    StripKeepsLine(c);
    LineRoundTrip(c);
  }

  lemma StripKeepsLine(c: Claim)
    requires ValidClaim(c)
    ensures Strip(Line(c)) == Line(c)
  {
    LineStarts(c);
    var line := Line(c);
    assert Strip(line + "\n") == line;
    StripStripped(line + "\n");
  }

  // ---- one acquire or release with nobody else moving -----------------------------------------

  function AfterLock(s: State, claim: Claim, reclaim: bool): seq<Step> {
    match Judge(s.contents, s.locked != {}, reclaim)
    case RefusedBusy => [Close(s.next)]
    case RefusedStale => [Read(s.next), Close(s.next)]
    case Entered => [Read(s.next), Truncate(s.next)] + [Write(s.next, |Text(claim)|), Publish(s.next)]
  }

  function AcquireSteps(s: State, claim: Claim, reclaim: bool): seq<Step> {
    [Open(Window, claim, reclaim), TryFlock(s.next)] + AfterLock(s, claim, reclaim)
  }

  function ReleaseSteps(fd: Fd): seq<Step> { [BeginRelease(fd)] + ([Truncate(fd), Unlock(fd)] + [Close(fd)]) }

  lemma {:induction false} RunAppend(s: State, a: seq<Step>, b: seq<Step>)
    ensures Run(s, a + b) == Run(Run(s, a), b)
    decreases |a|
  {
    if a == [] {
      assert a + b == b;
    } else {
      assert (a + b)[1..] == a[1..] + b;
      RunAppend(Apply(s, a[0]), a[1..], b);
    }
  }

  lemma RunOne(s: State, step: Step)
    ensures Run(s, [step]) == Apply(s, step)
  {
    assert [step][1..] == [];
  }

  /** The state with one more session. */
  function Joined(s: State, x: Session, contents: string, locked: set<Fd>, live: set<Fd>): State {
    State(contents, locked, s.next + 1, s.sessions[s.next := x], live)
  }

  lemma JoinedStep(s: State, x: Session, y: Session, contents: string, locked: set<Fd>, live: set<Fd>)
    ensures Joined(s, x, contents, locked, live).sessions[s.next := y] == Joined(s, y, contents, locked, live).sessions
    ensures s.next !in s.sessions && s.next !in locked && s.next !in live ==>
              var left := s.(next := s.next + 1, contents := contents, locked := locked, live := live);
              && Gone(Joined(s, x, contents, locked + {s.next}, live), {s.next}) == left
              && Gone(Joined(s, x, contents, locked, live), {s.next}) == left
  {
    if s.next !in s.sessions {
      assert s.sessions[s.next := x] - {s.next} == s.sessions;
      if s.next !in locked && s.next !in live {
        assert locked + {s.next} - {s.next} == locked - {s.next} == locked && live - {s.next} == live;
      }
    }
  }

  /** Opening and asking for the flock: granted exactly when no other description has it. */
  lemma OpenAndLock(s: State, claim: Claim, reclaim: bool)
    requires Inv(s)
    ensures var t := Apply(Apply(s, Open(Window, claim, reclaim)), TryFlock(s.next));
            t == if s.locked == {} then Joined(s, Session(Window, claim, Text(claim), reclaim, Granted, false), s.contents, {s.next}, s.live)
                 else Joined(s, Session(Window, claim, Text(claim), reclaim, TurnedAway, false), s.contents, s.locked, s.live)
  {
    var fd := s.next;
    assert fd !in s.sessions;
    assert s.locked - {fd} == s.locked;
    var x := Session(Window, claim, Text(claim), reclaim, Opened, false);
    assert Apply(s, Open(Window, claim, reclaim)) == Joined(s, x, s.contents, s.locked, s.live);
    JoinedStep(s, x, x.(phase := Granted), s.contents, s.locked, s.live);
    JoinedStep(s, x, x.(phase := TurnedAway), s.contents, s.locked, s.live);
  }

  lemma FdsAreFresh(s: State)
    requires Inv(s)
    ensures s.next !in s.sessions && s.next !in s.locked
  {
  }

  lemma RunTwo(s: State, a: Step, b: Step)
    ensures Run(s, [a, b]) == Apply(Apply(s, a), b)
  {
    assert [a, b][1..] == [b];
    RunOne(Apply(s, a), b);
  }

  lemma ReadJoined(s: State, x: Session, contents: string, locked: set<Fd>, live: set<Fd>)
    ensures Apply(Joined(s, x, contents, locked, live), Read(s.next)) == Joined(s, x.(phase := AfterRead(x, contents)), contents, locked, live)
  {
    JoinedStep(s, x, x.(phase := AfterRead(x, contents)), contents, locked, live);
  }

  lemma TruncateJoined(s: State, x: Session, contents: string, locked: set<Fd>, live: set<Fd>)
    requires x.phase.Entering?
    ensures Apply(Joined(s, x, contents, locked, live), Truncate(s.next)) == Joined(s, x.(phase := Writing(0)), "", locked, live)
  {
    JoinedStep(s, x, x.(phase := Writing(0)), contents, locked, live);
  }

  lemma WriteJoined(s: State, x: Session, locked: set<Fd>, live: set<Fd>)
    requires x.phase == Writing(0)
    ensures Apply(Joined(s, x, "", locked, live), Write(s.next, |x.text|)) == Joined(s, x.(phase := Written), x.text, locked, live)
  {
    JoinedStep(s, x, x.(phase := Written), "", locked, live);
    assert "" + x.text[0..|x.text|] == x.text;
  }

  lemma PublishJoined(s: State, x: Session, contents: string, locked: set<Fd>, live: set<Fd>)
    requires x.phase.Written?
    ensures Apply(Joined(s, x, contents, locked, live), Publish(s.next)) == Joined(s, x.(phase := Held), contents, locked, live + {s.next})
  {
    JoinedStep(s, x, x.(phase := Held), contents, locked, live);
  }

  lemma EnterAndPublish(s: State, x: Session)
    requires x.kind.Window? && x.phase.Granted? && MayEnter(s.contents, x.reclaim)
    ensures Run(Joined(s, x, s.contents, {s.next}, s.live), [Read(s.next), Truncate(s.next)] + [Write(s.next, |x.text|), Publish(s.next)])
            == Joined(s, x.(phase := Held), x.text, {s.next}, s.live + {s.next})
  {
    var fd := s.next;
    var t0 := Joined(s, x, s.contents, {fd}, s.live);
    var t2 := Joined(s, x.(phase := Writing(0)), "", {fd}, s.live);
    ReadJoined(s, x, s.contents, {fd}, s.live);
    TruncateJoined(s, x.(phase := Entering), s.contents, {fd}, s.live);
    WriteJoined(s, x.(phase := Writing(0)), {fd}, s.live);
    PublishJoined(s, x.(phase := Written), x.text, {fd}, s.live);
    RunTwo(t0, Read(fd), Truncate(fd));
    RunTwo(t2, Write(fd, |x.text|), Publish(fd));
    RunAppend(t0, [Read(fd), Truncate(fd)], [Write(fd, |x.text|), Publish(fd)]);
  }

  lemma TurnedAwayLeaves(s: State, x: Session)
    requires Inv(s) && x.phase.TurnedAway?
    ensures Run(Joined(s, x, s.contents, s.locked, s.live), [Close(s.next)]) == s.(next := s.next + 1)
  {
    RunOne(Joined(s, x, s.contents, s.locked, s.live), Close(s.next));
    JoinedStep(s, x, x, s.contents, s.locked, s.live);
  }

  lemma RefusedLeaves(s: State, x: Session)
    requires Inv(s) && s.locked == {} && x.kind.Window? && x.phase.Granted? && !MayEnter(s.contents, x.reclaim)
    ensures Run(Joined(s, x, s.contents, {s.next}, s.live), [Read(s.next), Close(s.next)]) == s.(next := s.next + 1)
  {
    RunTwo(Joined(s, x, s.contents, {s.next}, s.live), Read(s.next), Close(s.next));
    ReadJoined(s, x, s.contents, {s.next}, s.live);
    JoinedStep(s, x.(phase := Refusing), x, s.contents, s.locked, s.live);
    assert s.locked + {s.next} == {s.next};
  }

  /**
   An acquire that nobody interrupts: it enters exactly when no description has the flock and the file
   claims no owner or it may reclaim; refused, it leaves the file, the flock and every window as they were.
   */
  lemma AcquireAlone(s: State, claim: Claim, reclaim: bool)
    requires Inv(s)
    ensures var t := Run(s, AcquireSteps(s, claim, reclaim));
            if Judge(s.contents, s.locked != {}, reclaim).Entered?
            then t == Joined(s, Session(Window, claim, Text(claim), reclaim, Held, false), Text(claim), {s.next}, s.live + {s.next})
            else t == s.(next := s.next + 1)
  {
    var x := Session(Window, claim, Text(claim), reclaim, Granted, false);
    var first := [Open(Window, claim, reclaim), TryFlock(s.next)];
    OpenAndLock(s, claim, reclaim);
    RunTwo(s, Open(Window, claim, reclaim), TryFlock(s.next));
    RunAppend(s, first, AfterLock(s, claim, reclaim));
    match Judge(s.contents, s.locked != {}, reclaim)
    case RefusedBusy => TurnedAwayLeaves(s, x.(phase := TurnedAway));
    case RefusedStale => RefusedLeaves(s, x);
    case Entered => EnterAndPublish(s, x);
  }

  /** Its description ends up held exactly when the verdict lets it in, and closed otherwise. */
  lemma AcquireOutcome(s: State, claim: Claim, reclaim: bool)
    requires Inv(s)
    ensures var t, entered := Run(s, AcquireSteps(s, claim, reclaim)), Judge(s.contents, s.locked != {}, reclaim).Entered?;
            (IsHeld(t, s.next) <==> entered) && (s.next in t.sessions <==> entered)
  {
    AcquireAlone(s, claim, reclaim);
    FdsAreFresh(s);
  }

  /** On a free bench with an empty file it gets in, and no other description comes or goes. */
  lemma EntersFree(s: State, claim: Claim)
    requires Inv(s) && s.locked == {} && s.contents == ""
    ensures var t := Run(s, AcquireSteps(s, claim, false));
            IsHeld(t, s.next) && t.sessions.Keys == s.sessions.Keys + {s.next}
  {
    AcquireAlone(s, claim, false);
  }

  lemma OpensFirst(s: State, claim: Claim, reclaim: bool)
    ensures var steps := AcquireSteps(s, claim, reclaim);
            forall i :: 0 <= i < |steps| && steps[i].Open? ==> steps[i].claim == claim
  {
  }

  predicate LetsGo(step: Step) { step.Crash? || step.BeginRelease? || step.Fail? }

  lemma EntryActs(fd: Fd, n: nat)
    ensures var steps := [Read(fd), Truncate(fd)] + [Write(fd, n), Publish(fd)]; forall i :: 0 <= i < |steps| ==> !LetsGo(steps[i])
  {
  }

  lemma AfterLockActs(s: State, claim: Claim, reclaim: bool)
    ensures forall i :: 0 <= i < |AfterLock(s, claim, reclaim)| ==> !LetsGo(AfterLock(s, claim, reclaim)[i])
  {
    EntryActs(s.next, |Text(claim)|);
  }

  /** The steps of an acquire after its open. */
  lemma AcquireOnlyActs(s: State, claim: Claim, reclaim: bool)
    ensures var steps := AcquireSteps(s, claim, reclaim);
            && steps[0] == Open(Window, claim, reclaim)
            && Run(s, steps) == Run(Apply(s, steps[0]), steps[1..])
            && forall i :: 0 < i < |steps| ==> !LetsGo(steps[i])
  {
    AfterLockActs(s, claim, reclaim);
  }

  lemma ClearsOwnLine(c: Claim)
    requires ValidClaim(c)
    ensures ClearsLine(Text(c), c.pid)
  {
    FirstLineOfText(c);
  }

  lemma OwnLineClears(x: Session, contents: string)
    requires x.phase.Held? && Signs(x) && contents == x.text
    ensures AfterRelease(x, contents) == Clearing
  {
    ClearsOwnLine(x.claim);
  }

  lemma BeginReleaseClears(s: State, fd: Fd)
    requires Sound(s) && IsHeld(s, fd)
    ensures s.locked == {fd} && Apply(s, BeginRelease(fd)) == At(s, fd, Clearing)
  {
    HeldOwns(s, fd);
    assert Signs(s.sessions[fd]);
    OwnLineClears(s.sessions[fd], s.contents);
    ReleaseMoves(s, fd, s.sessions[fd]);
  }

  lemma ReleaseMoves(s: State, fd: Fd, x: Session)
    requires fd in s.sessions && x == s.sessions[fd] && AfterRelease(x, s.contents) == Clearing
    ensures Apply(s, BeginRelease(fd)) == At(s, fd, Clearing)
  {
  }

  lemma ClearAndClose(s: State, fd: Fd)
    requires fd in s.sessions && s.sessions[fd].phase.Clearing? && s.locked == {fd}
    ensures Run(s, [Truncate(fd), Unlock(fd)] + [Close(fd)]) == State("", {}, s.next, s.sessions - {fd}, s.live - {fd})
  {
    var t := At(s, fd, Unlocking).(contents := "");
    assert Apply(s, Truncate(fd)) == t;
    assert t.locked - {fd} == {};
    RunTwo(s, Truncate(fd), Unlock(fd));
    var u := Apply(t, Unlock(fd));
    RunOne(u, Close(fd));
    assert u.sessions - {fd} == s.sessions - {fd};
    RunAppend(s, [Truncate(fd), Unlock(fd)], [Close(fd)]);
  }

  /** A release that nobody interrupts drops the flock and leaves the file empty. */
  lemma ReleaseAlone(s: State, fd: Fd)
    requires Sound(s) && IsHeld(s, fd)
    ensures Run(s, ReleaseSteps(fd)) == State("", {}, s.next, s.sessions - {fd}, s.live - {fd})
  {
    var t := At(s, fd, Clearing);
    BeginReleaseClears(s, fd);
    ClearAndClose(t, fd);
    RunOne(s, BeginRelease(fd));
    RunAppend(s, [BeginRelease(fd)], [Truncate(fd), Unlock(fd)] + [Close(fd)]);
    assert t.sessions - {fd} == s.sessions - {fd};
  }

  /** After an orderly release the next acquire needs no reclaim. */
  lemma ReleaseThenAcquire(s: State, fd: Fd, claim: Claim)
    requires Sound(s) && IsHeld(s, fd)
    ensures var t := Run(s, ReleaseSteps(fd));
            Judge(t.contents, t.locked != {}, false).Entered? && BenchState(t) == "free"
  {
    ReleaseAlone(s, fd);
  }

  lemma ClearingStep(s: State, step: Step, fd: Fd)
    requires Inv(s) && fd in s.sessions && s.sessions[fd].phase.Clearing?
    requires step != Truncate(fd) && step != Fail(fd) && step != Crash(s.sessions[fd].claim.pid)
    ensures var t := Apply(s, step);
            fd in t.sessions && t.sessions[fd].phase.Clearing? && t.sessions[fd].claim == s.sessions[fd].claim
  {
  }

  /** Nobody else can keep a release from clearing. */
  lemma {:induction false} ClearingStays(s: State, steps: seq<Step>, fd: Fd)
    requires Inv(s) && fd in s.sessions && s.sessions[fd].phase.Clearing?
    requires forall i :: 0 <= i < |steps| ==> steps[i] != Truncate(fd) && steps[i] != Fail(fd) && steps[i] != Crash(s.sessions[fd].claim.pid)
    ensures Inv(Run(s, steps)) && fd in Run(s, steps).sessions && Run(s, steps).sessions[fd].phase.Clearing?
    decreases |steps|
  {
    if steps != [] {
      ClearingStep(s, steps[0], fd);
      StepKeeps(s, steps[0]);
      ClearingStays(Apply(s, steps[0]), steps[1..], fd);
    }
  }

  lemma {:induction false} EmptyStays(s: State, steps: seq<Step>)
    requires s.contents == "" && forall i :: 0 <= i < |steps| ==> !steps[i].Write?
    ensures Run(s, steps).contents == ""
    decreases |steps|
  {
    if steps != [] { EmptyStays(Apply(s, steps[0]), steps[1..]); }
  }

  /**
   A release among any steps of others, before its truncate and after it: the file ends empty and stays empty
   until somebody writes a line, and whoever is granted the flock meanwhile enters without reclaim.
   */
  lemma {:induction false} ReleaseAmongOthers(s: State, fd: Fd, before: seq<Step>, after: seq<Step>)
    requires Sound(s) && IsHeld(s, fd)
    requires forall i :: 0 <= i < |before| ==>
               before[i] != Truncate(fd) && before[i] != Fail(fd) && before[i] != Crash(s.sessions[fd].claim.pid)
    requires forall i :: 0 <= i < |after| ==> !after[i].Write?
    ensures var t := Run(Apply(Run(Apply(s, BeginRelease(fd)), before), Truncate(fd)), after);
            && t.contents == "" && BenchState(t) != "stale"
            && forall g :: g in t.sessions && t.sessions[g].kind.Window? && t.sessions[g].phase.Granted? ==>
                 AfterRead(t.sessions[g], t.contents).Entering?
  {
    BeginReleaseClears(s, fd);
    StepKeeps(s, BeginRelease(fd));
    ClearingStays(Apply(s, BeginRelease(fd)), before, fd);
    EmptyStays(Apply(Run(Apply(s, BeginRelease(fd)), before), Truncate(fd)), after);
  }

  /** force_release: a reclaiming acquire, then a release. It empties a file nobody holds and cannot touch a held one. */
  lemma ForceReleaseAlone(s: State, claim: Claim)
    requires Sound(s) && ValidClaim(claim)
    ensures var t := Run(s, AcquireSteps(s, claim, true));
            if s.locked == {} then Run(t, ReleaseSteps(s.next)) == State("", {}, s.next + 1, s.sessions, s.live)
            else t == s.(next := s.next + 1)
  {
    AcquireAlone(s, claim, true);
    if s.locked == {} {
      AcquireKeeps(s, claim);
      ReleaseAlone(Run(s, AcquireSteps(s, claim, true)), s.next);
      DropJoined(s, Session(Window, claim, Text(claim), true, Held, false));
    }
  }

  lemma DropJoined(s: State, x: Session)
    requires Inv(s)
    ensures s.sessions[s.next := x] - {s.next} == s.sessions && s.live + {s.next} - {s.next} == s.live
  {
    FdsAreFresh(s);
    assert s.next !in s.live;
  }

  lemma AcquireKeeps(s: State, claim: Claim)
    requires Sound(s) && ValidClaim(claim)
    ensures Inv(Run(s, AcquireSteps(s, claim, true)))
  {
    RunKeeps(s, AcquireSteps(s, claim, true));
  }

  // ---- what bench_state foretells ---------------------------------------------------------------

  /** A first line that says nothing above one that claims an owner. */
  predicate Masked(contents: string) { Strip(FirstLine(contents)) == "" && Live(contents) }

  lemma FirstLineLive(contents: string)
    ensures Live(FirstLine(contents)) == Live(contents) <==> !Masked(contents)
  {
    var a, b := FirstLine(contents), contents[LineEnd(contents)..];
    assert contents == a + b;
    LiveIsFirstWord(a);
    LiveIsFirstWord(contents);
    SplitStripped(a);
    if Strip(a) != "" {
      TrimEndFirst(DropSpaces(a));
      FirstWordStays(a, b);
    }
  }

  /**
   bench_state says held, stale or free exactly as an acquire without reclaim would find it, unless the
   flock is free and a blank first line hides a live one: the state is read from one line, the acquire reads all.
   */
  lemma StateForetells(s: State)
    ensures var v := Judge(s.contents, s.locked != {}, false);
            (&& (BenchState(s) == "held" <==> v.RefusedBusy?)
             && (BenchState(s) == "stale" <==> v.RefusedStale?)
             && (BenchState(s) == "free" <==> v.Entered?))
            <==> s.locked != {} || !Masked(s.contents)
  {
    FirstLineLive(s.contents);
  }

  /** The verdict of an acquire, by the first word of the whole file. */
  lemma JudgedByFirstWord(text: string, reclaim: bool)
    ensures Judge(text, true, reclaim) == RefusedBusy
    ensures Judge(text, false, reclaim) == if !reclaim && Split(text) != [] && !Resigned(Split(text)[0]) then RefusedStale else Entered
  {
    NoOwnerExactly(text);
  }

  /** The state of the bench, by the flock and the first word of the first line. */
  lemma StateByFirstWord(s: State)
    ensures BenchState(s) ==
            if s.locked != {} then "held"
            else if Split(FirstLine(s.contents)) != [] && !Resigned(Split(FirstLine(s.contents))[0]) then "stale" else "free"
  {
    NoOwnerExactly(FirstLine(s.contents));
  }

  /** A legacy marker, "released by" anybody, in either case of its letters: free, and an acquire enters. */
  lemma ResignedIsFree(word: string, rest: string, reclaim: bool)
    requires IsWord(word) && Resigned(word) && (rest == "" || IsSpace(rest[0]))
    ensures Judge(word + rest, false, reclaim) == Entered && BenchState(Initial(word + rest)) == "free"
  {
    ResignedIsNobody(word, rest);
    FirstLineLive(word + rest);
  }

  lemma ReleasedByIsFree(word: string, rest: string, reclaim: bool)
    requires word == "released"
    ensures Judge(word + (" by" + rest), false, reclaim) == Entered && BenchState(Initial(word + (" by" + rest))) == "free"
  {
    ResignedIsFree(word, " by" + rest, reclaim);
  }

  /** A release clears a line that names no pid, or its own, and never another's. */
  lemma ClearsOnlyOwn(c: Claim, pid: int)
    requires ValidClaim(c) && pid >= 0
    ensures ClearsLine(Text(c), pid) <==> c.pid == pid
  {
    FirstLineOfText(c);
    LineRoundTrip(c);
    if Decimal(c.pid) == Decimal(pid) { DecimalInjective(c.pid, pid); }
  }

  lemma ClearsNameless(text: string, pid: int)
    requires forall w :: w in Split(FirstLine(text)) ==> '=' !in w
    ensures ClearsLine(text, pid)
  {
    var line := FirstLine(text);
    if Strip(line) != "" {
      SplitStripped(line);
      NoPairsNoFields(Split(line));
    }
  }

  lemma {:induction false} NoPairsNoFields(tokens: seq<string>)
    requires forall w :: w in tokens ==> '=' !in w
    ensures FieldsOf(tokens) == map[]
  {
    if tokens != [] { NoPairsNoFields(tokens[..|tokens| - 1]); }
  }

  /** Any text that claims an owner is masked by a blank line above it: free to bench_state, stale to an acquire. */
  lemma BlankLineMasks(text: string)
    requires Live(text)
    ensures Masked("\n" + text)
    ensures BenchState(Initial("\n" + text)) == "free" && Judge("\n" + text, false, false).RefusedStale?
  {
    assert ("\n" + text)[1..] == text;
    assert FirstLine("\n" + text) == "";
  }

  lemma LineHeadIsNoSpace(c: Claim, n: nat)
    requires ValidClaim(c) && n <= |Text(c)|
    ensures !Masked(Text(c)[..n])
  {
    var part := Text(c)[..n];
    LineStarts(c);
    ClaimWords(c);
    FirstLineLive(part);
    if n > 0 {
      assert part[0] == Clean(c.profile, "unknown")[0] && !IsSpace(part[0]);
      assert FirstLine(part) != "" && FirstLine(part)[0] == part[0];
      TrimEndFirst(FirstLine(part));
    }
  }

  lemma NewContents(s: State, step: Step)
    requires Inv(s) && Apply(s, step).contents != s.contents
    ensures !step.Open? && !step.Crash? && step.fd in s.sessions
    ensures var x := s.sessions[step.fd];
            exists n: nat :: n <= |x.text| && Apply(s, step).contents == x.text[..n]
  {
    OnlyOwnerWrites(s, step);
    var x := s.sessions[step.fd];
    assert SessionOk(s, step.fd, x);
    if step.Write? {
      assert Apply(s, step).contents == x.text[..x.phase.sent + step.n];
    } else {
      assert Apply(s, step).contents == x.text[..0];
    }
  }

  lemma StepKeepsUnmasked(s: State, step: Step)
    requires Sound(s) && !Masked(s.contents)
    ensures !Masked(Apply(s, step).contents)
  {
    if Apply(s, step).contents != s.contents {
      NewContents(s, step);
      var x := s.sessions[step.fd];
      var n: nat :| n <= |x.text| && Apply(s, step).contents == x.text[..n];
      assert Signs(x);
      LineHeadIsNoSpace(x.claim, n);
    }
  }

  /** No run of these programs ever masks a line, so from an unmasked file the state is always right. */
  lemma {:induction false} NeverMasked(s: State, steps: seq<Step>)
    requires Sound(s) && SoundSteps(steps) && !Masked(s.contents)
    ensures !Masked(Run(s, steps).contents)
    decreases |steps|
  {
    if steps != [] {
      StepKeeps(s, steps[0]);
      StepSigned(s, steps[0]);
      StepKeepsUnmasked(s, steps[0]);
      NeverMasked(Apply(s, steps[0]), steps[1..]);
    }
  }

  // ---- child windows ----------------------------------------------------------------------------

  /** require(), run by a child that was handed the environment of a window of process `pid`. */
  predicate RequirePasses(s: State, pid: int) { ClearsLine(s.contents, pid) && s.locked != {} }

  /** Nobody is between taking the flock and publishing, or between releasing and dropping it. */
  predicate Quiet(s: State) { forall fd :: fd in s.locked ==> IsHeld(s, fd) }

  lemma OwnLineNames(c: Claim, pid: nat)
    requires ValidClaim(c)
    ensures ClearsLine(Text(c), pid) <==> c.pid == pid
  {
    FirstLineOfText(c);
    if ClearsLine(Text(c), pid) { DecimalInjective(c.pid, pid); }
  }

  /** In a quiet state the child passes exactly when a window of that process is held. */
  lemma ChildWindow(s: State, pid: nat)
    requires Sound(s) && Quiet(s)
    ensures RequirePasses(s, pid) <==> exists fd: Fd :: IsHeld(s, fd) && s.sessions[fd].claim.pid == pid
  {
    if s.locked != {} {
      var owner :| owner in s.locked;
      HeldOwns(s, owner);
      assert Signs(s.sessions[owner]);
      OwnLineNames(s.sessions[owner].claim, pid);
    } else {
      forall fd: Fd | IsHeld(s, fd) ensures fd in s.locked { HeldOwns(s, fd); }
    }
  }

  /** And in any state of any run, the two agree exactly if the state is quiet or the line in the file names another process. */
  lemma ChildWindowExactly(s: State, pid: nat)
    requires Sound(s)
    ensures (RequirePasses(s, pid) <==> exists fd: Fd :: IsHeld(s, fd) && s.sessions[fd].claim.pid == pid)
       <==> Quiet(s) || !ClearsLine(s.contents, pid)
  {
    if Quiet(s) {
      ChildWindow(s, pid);
    } else {
      var owner :| owner in s.locked && !IsHeld(s, owner);
      forall fd: Fd | IsHeld(s, fd) ensures fd == owner { HeldOwns(s, fd); }
    }
  }

  /**
   Quiet is needed: while another process stands between its flock and its truncate, the line of a dead
   window still lets that window's children pass, although no window of theirs is open.
   */
  lemma StaleLineLetsChildPass(dead: Claim, heir: Claim)
    requires ValidClaim(dead) && ValidClaim(heir) && dead.pid != heir.pid
    ensures var s := Run(Initial(Text(dead)), [Open(Window, heir, true), TryFlock(0)]);
            RequirePasses(s, dead.pid) && forall fd :: fd in s.sessions ==> s.sessions[fd].claim.pid != dead.pid
  {
    var s := Initial(Text(dead));
    InitialOk(s.contents);
    RunTwo(s, Open(Window, heir, true), TryFlock(0));
    OpenAndLock(s, heir, true);
    ClearsOwnLine(dead);
  }

  /** Some window has the flock. */
  predicate WindowLocks(s: State) { exists fd: Fd :: fd in s.locked && fd in s.sessions && s.sessions[fd].kind.Window? }

  /** A probe or a check stands between taking the flock and giving it back. */
  predicate ProbeInFlight(s: State) {
    exists fd: Fd :: fd in s.sessions && !s.sessions[fd].kind.Window? && HasFlock(s.sessions[fd].phase)
  }

  lemma LockerIsWindowOrProbe(s: State)
    requires Inv(s)
    ensures (s.locked != {} ==> WindowLocks(s)) <==> !ProbeInFlight(s)
  {
    if s.locked != {} {
      var owner :| owner in s.locked;
      assert SessionOk(s, owner, s.sessions[owner]);
      forall fd: Fd | fd in s.sessions && HasFlock(s.sessions[fd].phase) ensures fd == owner {
        assert SessionOk(s, fd, s.sessions[fd]);
      }
    } else {
      forall fd: Fd | fd in s.sessions ensures !HasFlock(s.sessions[fd].phase) { assert SessionOk(s, fd, s.sessions[fd]); }
    }
  }

  /**
   In every reachable state an acquire is turned away exactly when the verdict is busy, and "busy" means that a
   window has the bench exactly when no probe or check is in flight.
   */
  lemma {:induction false} BusyMeansWindow(contents: string, steps: seq<Step>, claim: Claim, reclaim: bool)
    requires SoundSteps(steps)
    ensures var s := Run(Initial(contents), steps);
            var asked := Apply(Apply(s, Open(Window, claim, reclaim)), TryFlock(s.next));
            var busy := s.next in asked.sessions && asked.sessions[s.next].phase.TurnedAway?;
            && (busy <==> Judge(s.contents, s.locked != {}, reclaim).RefusedBusy?)
            && ((busy ==> WindowLocks(s)) <==> !ProbeInFlight(s))
  {
    var s := Run(Initial(contents), steps);
    InitialOk(contents);
    RunKeeps(Initial(contents), steps);
    OpenAndLock(s, claim, reclaim);
    LockerIsWindowOrProbe(s);
  }

  /** A status probe holds the flock for an instant: an acquire can be turned away as busy with no window open. */
  lemma {:induction false} ProbeTurnsAway(contents: string, probe: Claim, claim: Claim, reclaim: bool)
    requires ValidClaim(probe)
    ensures var s := Run(Run(Initial(contents), [Open(Probe, probe, false), TryFlock(0)]), [Open(Window, claim, reclaim), TryFlock(1)]);
            1 in s.sessions && s.sessions[1].phase.TurnedAway?
            && forall fd :: fd in s.locked ==> fd in s.sessions && s.sessions[fd].kind.Probe?
  {
    var s := Initial(contents);
    InitialOk(contents);
    RunTwo(s, Open(Probe, probe, false), TryFlock(0));
    var t := Run(s, [Open(Probe, probe, false), TryFlock(0)]);
    RunKeeps(s, [Open(Probe, probe, false), TryFlock(0)]);
    assert t.locked == {0} && t.next == 1;
    RunTwo(t, Open(Window, claim, reclaim), TryFlock(1));
    OpenAndLock(t, claim, reclaim);
  }
}
