/**
 The lock objects of lib/bench_lock.py and lib/router_lock.py as one caller drives them. What other
 processes may do between two of their kernel calls is the subject of BenchLease; a call here is one
 run of that machine's steps with nobody else moving, and `Judge` is the verdict both share.
 */
module BenchLock {
  import opened Prelude
  import opened PyText
  import opened HolderLine
  import opened BenchLease

  /** The file is the claim's line and the holder read back from it is the claim's. */
  ghost predicate Shown(c: Claim, contents: string, holder: Holder) {
    ValidClaim(c) && contents == Text(c) && holder == ParseHolder(contents)
  }

  lemma ReadBack(c: Claim, text: string, contents: string)
    requires ValidClaim(c) && text == Text(c) && contents == "" + text
    ensures Shown(c, contents, ParseHolder(FirstLine(contents)))
  {
    FirstLineOfText(c);
  }

  /** Where an I/O error hits a release: nowhere, before its truncate, or at the flush after it. */
  datatype Fault = NoFault | BeforeClearing | AfterClearing

  /** The lock file and the kernel's table of descriptions owning its flock. */
  class LockFile {
    var contents: string
    var locked: set<Fd>
    var next: Fd

    ghost predicate Valid()
      reads this
    {
      (forall fd :: fd in locked ==> fd < next) && forall a, b :: a in locked && b in locked ==> a == b
    }

    constructor (text: string)
      ensures Valid() && contents == text && locked == {} && next == 0
    {
      contents, locked, next := text, {}, 0;
    }

    method OpenFile() returns (fd: Fd)
      requires Valid()
      modifies this`next
      ensures Valid() && fd == old(next) && next == fd + 1
    {
      fd := next;
      next := next + 1;
    }

    /** flock(LOCK_EX | LOCK_NB). */
    method Flock(fd: Fd) returns (ok: bool)
      requires Valid() && fd < next
      modifies this`locked
      ensures Valid()
      ensures ok <==> old(locked) - {fd} == {}
      ensures locked == if ok then {fd} else old(locked)
    {
      ok := locked - {fd} == {};
      if ok { locked := {fd}; }
    }

    /** Dropping the flock, whether by LOCK_UN or by closing the description. */
    method Unlock(fd: Fd)
      requires Valid()
      modifies this`locked
      ensures Valid() && locked == old(locked) - {fd}
    {
      locked := locked - {fd};
    }

    method Truncate()
      requires Valid()
      modifies this`contents
      ensures Valid() && contents == ""
    {
      contents := "";
    }

    method Append(text: string)
      requires Valid()
      modifies this`contents
      ensures Valid() && contents == old(contents) + text
    {
      contents := contents + text;
    }

    /** Truncate, write the line, read it back. */
    method Rewrite(c: Claim) returns (holder: Holder)
      requires Valid() && ValidClaim(c)
      modifies this`contents
      ensures Valid() && Shown(c, contents, holder)
    {
      var text := Text(c);
      Truncate();
      Append(text);
      ReadBack(c, text, contents);
      holder := ParseHolder(FirstLine(contents));
    }

    /** _flock_held: a fresh description tries the lock and gives it back. */
    method FlockHeld() returns (held: bool)
      requires Valid()
      modifies this
      ensures Valid() && contents == old(contents) && locked == old(locked)
      ensures held <==> locked != {}
    {
      var fd := OpenFile();
      assert locked - {fd} == locked;
      var ok := Flock(fd);
      if ok { Unlock(fd); }
      held := !ok;
    }
  }

  /** A BenchLock object; `since` is the stamp of the line it last wrote. */
  class BenchWindow {
    const file: LockFile
    const claim: Claim
    const reclaimStale: bool
    var since: string
    var handle: Option<Fd>
    var holder: Holder

    function Stamped(): Claim
      reads this
    {
      claim.(since := since)
    }

    /** The line of this claim is in the file; the quantifier keeps its text folded up until it is asked for. */
    ghost predicate OwnLine()
      reads this, file
    {
      forall c {:trigger Text(c)} :: c == Stamped() ==> Shown(c, file.contents, holder)
    }

    /** Held, it owns the flock alone and the file is its own line. */
    ghost predicate Valid()
      reads this, file
    {
      && file.Valid() && claim.pid >= 0
      && (handle.Some? ==> file.locked == {handle.value} && OwnLine())
    }

    constructor (file: LockFile, claim: Claim, reclaimStale: bool)
      requires file.Valid() && claim.pid >= 0
      ensures Valid() && this.file == file && this.claim == claim && this.reclaimStale == reclaimStale && handle == None
    {
      this.file, this.claim, this.reclaimStale := file, claim, reclaimStale;
      since, handle, holder := "", None, NO_HOLDER;
    }

    /**
     acquire. Held already, it does nothing. Otherwise the verdict is Judge's, a refusal changes neither
     the file nor the flock, and entering puts this window's line alone into the file.
     */
    method Acquire(writeHolder: bool, reclaim: Option<bool>, now: string) returns (verdict: Verdict)
      requires Valid() && IsWord(now)
      modifies this, file
      ensures Valid()
      ensures var may := if reclaim.Some? then reclaim.value else reclaimStale;
              if old(handle).Some? then verdict == Entered && unchanged(this) && unchanged(file)
              else if !writeHolder then
                verdict == Judge(old(file.contents), old(file.locked) != {}, true) && handle == None
                && file.contents == old(file.contents) && file.locked == old(file.locked)
              else
                verdict == Judge(old(file.contents), old(file.locked) != {}, may)
                && (if verdict.Entered?
                    then handle == Some(old(file.next)) && since == now && file.contents == Text(claim.(since := now))
                    else handle == None && file.contents == old(file.contents) && file.locked == old(file.locked))
    {
      if handle.Some? { return Entered; }
      var may := if reclaim.Some? then reclaim.value else reclaimStale;
      var fd := file.OpenFile();
      assert file.locked - {fd} == file.locked;
      var ok := file.Flock(fd);
      if !ok {
        return RefusedBusy;
      }
      if !writeHolder {
        file.Unlock(fd);
        return Entered;
      }
      if Live(file.contents) && !may {
        file.Unlock(fd);
        return RefusedStale;
      }
      WriteLine(fd, now);
      verdict := Entered;
    }

    /** The writing half of acquire: the line goes into the emptied file, and the window is published. */
    method WriteLine(fd: Fd, now: string)
      requires file.Valid() && file.locked == {fd} && claim.pid >= 0 && IsWord(now)
      modifies this, file`contents
      ensures Valid() && handle == Some(fd) && since == now
    {
      holder := file.Rewrite(claim.(since := now));
      since, handle := now, Some(fd);
      assert Stamped() == claim.(since := now);
    }

    /**
     release. Whatever happens to the clearing, the flock is dropped; the file is left empty unless an I/O
     error comes before the truncate, which leaves the line behind, and any error is raised.
     */
    method Release(fault: Fault) returns (raised: bool)
      requires Valid()
      modifies this, file
      ensures Valid() && handle == None && since == old(since)
      ensures old(handle).None? ==> !raised && unchanged(file)
      ensures old(handle).Some? ==> raised == !fault.NoFault? && file.locked == {}
      ensures old(handle).Some? ==> file.contents == if fault.BeforeClearing? then old(file.contents) else ""
    {
      raised := false;
      if handle.None? { return; }
      if fault.BeforeClearing? {
        raised := true;
      } else {
        assert Shown(Stamped(), file.contents, holder) by { var text := Text(Stamped()); }
        ClearsOwnLine(Stamped());
        if ClearsLine(file.contents, claim.pid) {
          file.Truncate();
          raised := fault.AfterClearing?;
        }
      }
      file.Unlock(handle.value);
      handle := None;
    }

    /** The holder line a held window reports is its own claim, whatever blanks or = signs it was given. */
    lemma HolderIsOwn()
      requires Valid() && handle.Some?
      ensures holder.pid == Decimal(claim.pid) && holder.profile == Clean(claim.profile, "unknown")
      ensures holder.purpose == Clean(claim.purpose, "ad-hoc") && holder.since == since
    {
      assert Shown(Stamped(), file.contents, holder) by { var text := Text(Stamped()); }
      LineRoundTrip(Stamped());
    }
  }

  /** RouterLock: one view over the bench window of its process. */
  class RouterLock {
    const file: LockFile
    const claim: Claim
    var window: BenchWindow?

    ghost predicate Valid()
      reads this, file, window
    {
      file.Valid() && claim.pid >= 0 && (window != null ==> window.file == file && window.Valid())
    }

    predicate Held()
      reads this, window
    {
      window != null && window.handle.Some?
    }

    constructor (file: LockFile, claim: Claim)
      requires file.Valid() && claim.pid >= 0
      ensures Valid() && this.file == file && this.claim == claim && window == null
    {
      this.file, this.claim, window := file, claim, null;
    }

    /** None: this object already holds the lease, which is an error. */
    method Acquire(routerId: string, phase: string, reclaimStale: bool, now: string) returns (verdict: Option<Verdict>)
      requires Valid() && IsWord(now)
      modifies this, file
      ensures Valid() && file.Valid()
      ensures verdict.None? <==> old(Held())
      ensures verdict.None? ==> unchanged(this) && unchanged(file)
      ensures verdict.Some? ==> verdict.value == Judge(old(file.contents), old(file.locked) != {}, reclaimStale)
      ensures verdict == Some(Entered) ==> Held() && fresh(window) && file.contents == Text(claim.(purpose := routerId + ":" + phase, since := now))
      ensures verdict.Some? && !verdict.value.Entered? ==> window == old(window)
      ensures verdict.Some? && !verdict.value.Entered? ==> file.contents == old(file.contents) && file.locked == old(file.locked)
    {
      if window != null && window.handle.Some? { return None; }
      var lock := new BenchWindow(file, claim.(purpose := routerId + ":" + phase), reclaimStale);
      var v := lock.Acquire(true, None, now);
      if v.Entered? { window := lock; }
      verdict := Some(v);
    }

    /** A release that raises leaves the object pointing at its window, which no longer holds anything. */
    method Release(fault: Fault) returns (raised: bool)
      requires Valid()
      modifies this, file, window
      ensures Valid() && !Held()
      ensures raised <==> old(Held()) && !fault.NoFault?
      ensures old(Held()) ==> file.locked == {} && window == if raised then old(window) else null
      ensures old(Held()) ==> file.contents == if fault.BeforeClearing? then old(file.contents) else ""
      ensures !old(Held()) ==> unchanged(file) && unchanged(this)
    {
      raised := false;
      if window == null || window.handle.None? { return; }
      raised := window.Release(fault);
      if !raised { window := null; }
    }

    /** force_release: clears a line without a flock behind it; a held lease refuses and keeps its line. */
    method ForceRelease(now: string, fault: Fault) returns (verdict: Verdict, raised: bool)
      requires Valid() && IsWord(now)
      modifies file
      ensures verdict == if old(file.locked) != {} then RefusedBusy else Entered
      ensures file.locked == old(file.locked)
      ensures verdict.Entered? && !fault.BeforeClearing? ==> file.contents == ""
      ensures verdict.Entered? && fault.BeforeClearing? ==> file.contents == Text(claim.(purpose := "router-lock-force-release", since := now))
      ensures !verdict.Entered? ==> file.contents == old(file.contents)
      ensures raised <==> verdict.Entered? && !fault.NoFault?
    {
      raised := false;
      var lock := new BenchWindow(file, claim.(purpose := "router-lock-force-release"), false);
      verdict := lock.Acquire(true, Some(true), now);
      if verdict.Entered? { raised := lock.Release(fault); }
    }
  }
}
