/**
 The pool of ready-made tokens (lib/cashu.py): a queue filled by several threads at once, popped by mint(),
 topped up by one background thread per pop that leaves it low, and emptied by drain(). Every section under
 the lock is one step, and every mint call ends, well or badly, at a step of its own.
 */
module TokenPool {
  import opened Prelude

  type Token = string

  const POOL_AMOUNT := 4
  const LOW := 3

  /** A token that left the queue, handed out or dropped. */
  datatype Left = Left(token: Token, handedOut: bool)

  /**
   `prefilling` and `replenishing` count mint calls under way for the pool; `minted` lists what they returned,
   `left` what the queue gave up, `direct` what callers were minted past the pool.
   */
  datatype State = State(queue: seq<Token>, prefilling: nat, replenishing: nat, minted: seq<Token>, left: seq<Left>, direct: seq<Token>)

  datatype Step =
    | PrefillDone(token: Token)
    | PrefillFailed
    | Mint(amount: int, direct: Option<Token>) // `direct`: what the minter answers if it is asked, None if it raises
    | MintFresh(direct: Option<Token>)
    | ReplenishDone(token: Token)
    | ReplenishFailed
    | Drain

  function Initial(poolSize: nat): State { State([], poolSize, 0, [], [], []) }

  function Queued(s: State, token: Token): State { s.(queue := s.queue + [token], minted := s.minted + [token]) }

  function Asked(s: State, direct: Option<Token>): State {
    if direct.Some? then s.(direct := s.direct + [direct.value]) else s
  }

  function Dropped(queue: seq<Token>): (r: seq<Left>)
    ensures |r| == |queue|
  {
    seq(|queue|, i requires 0 <= i < |queue| => Left(queue[i], false))
  }

  /** Callers come only once the constructor, and with it the prefill, has ended. */
  function Apply(s: State, step: Step): State {
    match step
    case PrefillDone(token) => if s.prefilling > 0 then Queued(s, token).(prefilling := s.prefilling - 1) else s
    case PrefillFailed => if s.prefilling > 0 then s.(prefilling := s.prefilling - 1) else s
    case ReplenishDone(token) => if s.replenishing > 0 then Queued(s, token).(replenishing := s.replenishing - 1) else s
    case ReplenishFailed => if s.replenishing > 0 then s.(replenishing := s.replenishing - 1) else s
    case Mint(amount, direct) =>
      if s.prefilling > 0 then s
      else if amount == POOL_AMOUNT && s.queue != [] then
        var rest := s.queue[1..];
        s.(queue := rest, left := s.left + [Left(s.queue[0], true)], replenishing := s.replenishing + if |rest| < LOW then 1 else 0)
      else Asked(s, direct)
    case MintFresh(direct) => if s.prefilling > 0 then s else Asked(s, direct)
    case Drain => if s.prefilling > 0 then s else s.(queue := [], left := s.left + Dropped(s.queue))
  }

  /** Nobody mints or drains while the pool is being prefilled; afterwards drain empties the queue. */
  lemma CallersComeLater(s: State, step: Step)
    requires step.Mint? || step.MintFresh? || step.Drain?
    ensures s.prefilling >= 1 ==> Apply(s, step) == s
    ensures s.prefilling == 0 && step.Drain? ==> Apply(s, step).queue == []
  {
  }

  function Run(s: State, steps: seq<Step>): State
    decreases |steps|
  {
    if steps == [] then s else Run(Apply(s, steps[0]), steps[1..])
  }

  function Tokens(left: seq<Left>): (r: seq<Token>)
    ensures |r| == |left|
  {
    seq(|left|, i requires 0 <= i < |left| => left[i].token)
  }

  /** What callers were handed from the pool, in order. */
  function HandedOut(left: seq<Left>): seq<Token> {
    if left == [] then [] else
      var n := |left| - 1;
      HandedOut(left[..n]) + if left[n].handedOut then [left[n].token] else []
  }

  /** Tokens leave in the order they were minted, none lost and none doubled; and the pool never outgrows its size. */
  ghost predicate Inv(s: State, poolSize: nat) {
    && s.minted == Tokens(s.left) + s.queue
    && |s.queue| + s.prefilling + s.replenishing <= poolSize
  }

  lemma QueuedLast(a: seq<Token>, b: seq<Token>, token: Token)
    ensures a + (b + [token]) == a + b + [token]
  {
  }

  lemma StepKeeps(s: State, step: Step, poolSize: nat)
    requires Inv(s, poolSize)
    ensures Inv(Apply(s, step), poolSize)
  {
    var t := Apply(s, step);
    match step
    case Mint(amount, _) =>
      if t.queue != s.queue {
        assert Tokens(t.left) == Tokens(s.left) + [s.queue[0]];
        assert s.queue == [s.queue[0]] + t.queue;
      }
    case Drain =>
      if s.prefilling == 0 {
        assert Tokens(t.left) == Tokens(s.left) + s.queue;
        assert t.minted == Tokens(t.left) + t.queue;
      }
    case PrefillDone(token) => QueuedLast(Tokens(s.left), s.queue, token);
    case ReplenishDone(token) => QueuedLast(Tokens(s.left), s.queue, token);
    case _ =>
  }

  lemma {:induction false} RunKeeps(s: State, steps: seq<Step>, poolSize: nat)
    requires Inv(s, poolSize)
    ensures Inv(Run(s, steps), poolSize)
    decreases |steps|
  {
    if steps != [] {
      StepKeeps(s, steps[0], poolSize);
      RunKeeps(Apply(s, steps[0]), steps[1..], poolSize);
    }
  }

  /** Where the k-th handed out token stood among those that left. */
  lemma {:induction false} HandedOutFrom(left: seq<Left>, k: nat) returns (at: nat)
    requires k < |HandedOut(left)|
    ensures at < |left| && left[at].handedOut && left[at].token == HandedOut(left)[k]
    ensures forall m :: k < m < |HandedOut(left)| ==> exists j :: at < j < |left| && left[j].token == HandedOut(left)[m]
  {
    var n := |left| - 1;
    var before := HandedOut(left[..n]);
    if k < |before| {
      at := HandedOutFrom(left[..n], k);
      forall m | k < m < |HandedOut(left)| ensures exists j :: at < j < |left| && left[j].token == HandedOut(left)[m] {
        if m < |before| {
          var j :| at < j < n && left[..n][j].token == before[m];
          assert left[j].token == HandedOut(left)[m];
        } else {
          assert left[n].token == HandedOut(left)[m];
        }
      }
    } else {
      at := n;
    }
  }

  lemma HandedOutDistinct(left: seq<Left>)
    requires Distinct(Tokens(left))
    ensures Distinct(HandedOut(left)) && forall x :: x in HandedOut(left) ==> x in Tokens(left)
  {
    var out := HandedOut(left);
    forall i, j | 0 <= i < j < |out| ensures out[i] != out[j] {
      var at := HandedOutFrom(left, i);
      assert HandedOut(left)[j] == out[j];
      var later :| at < later < |left| && left[later].token == out[j];
      assert Tokens(left)[at] == out[i] && Tokens(left)[later] == out[j];
    }
    forall x | x in out ensures x in Tokens(left) {
      var k :| 0 <= k < |out| && out[k] == x;
      var at := HandedOutFrom(left, k);
      assert Tokens(left)[at] == x;
    }
  }

  /**
   Over every interleaving: what the minter returned to the pool is what left it, in the same order, and then
   what is queued; queued tokens and mint calls under way never exceed the pool size; and if the minter never
   returns a token twice, nobody is handed one twice, from the pool or past it.
   */
  lemma PoolConserves(poolSize: nat, steps: seq<Step>)
    ensures var s := Run(Initial(poolSize), steps);
            && s.minted == Tokens(s.left) + s.queue
            && multiset(s.minted) == multiset(Tokens(s.left)) + multiset(s.queue)
            && |s.queue| + s.prefilling + s.replenishing <= poolSize
            && (Distinct(s.minted + s.direct) ==> Distinct(HandedOut(s.left) + s.direct))
  {
    var s := Run(Initial(poolSize), steps);
    assert Tokens([]) + [] == [];
    RunKeeps(Initial(poolSize), steps, poolSize);
    if Distinct(s.minted + s.direct) { HandedApart(s.left, s.queue, s.minted, s.direct); }
  }

  lemma HandedApart(left: seq<Left>, queue: seq<Token>, minted: seq<Token>, direct: seq<Token>)
    requires minted == Tokens(left) + queue && Distinct(minted + direct)
    ensures Distinct(HandedOut(left) + direct)
  {
    var out, all := HandedOut(left), minted + direct;
    assert forall i :: 0 <= i < |left| ==> all[i] == Tokens(left)[i];
    HandedOutDistinct(left);
    forall j | 0 <= j < |direct| ensures direct[j] !in Tokens(left) && forall k :: j < k < |direct| ==> direct[j] != direct[k] {
      assert all[|minted| + j] == direct[j];
      forall k | j < k < |direct| ensures direct[j] != direct[k] { assert all[|minted| + k] == direct[k]; }
    }
    forall i, j | 0 <= i < j < |out + direct| ensures (out + direct)[i] != (out + direct)[j] {
      if i < |out| && |out| <= j { assert out[i] in out; }
    }
  }

  // ---- running low, and running dry ------------------------------------------------------------

  predicate Failure(step: Step) { step.PrefillFailed? || step.ReplenishFailed? || step.Drain? }

  function Coming(s: State): nat { |s.queue| + s.prefilling + s.replenishing }

  /** As long as no mint for the pool fails and nobody drains it, three tokens are queued or on their way. */
  lemma {:induction false} NeverLow(s: State, steps: seq<Step>)
    requires Coming(s) >= 3 && forall i :: 0 <= i < |steps| ==> !Failure(steps[i])
    ensures Coming(Run(s, steps)) >= 3
    decreases |steps|
  {
    if steps != [] { NeverLow(Apply(s, steps[0]), steps[1..]); }
  }

  /** Topping up only follows a pop: a pool once empty with no mint call under way stays empty for good. */
  lemma {:induction false} DryStaysDry(s: State, steps: seq<Step>)
    requires Coming(s) == 0
    ensures Coming(Run(s, steps)) == 0 && HandedOut(Run(s, steps).left) == HandedOut(s.left)
    decreases |steps|
  {
    if steps != [] {
      var t := Apply(s, steps[0]);
      assert s.left + [] == s.left;
      assert t.left == s.left;
      DryStaysDry(t, steps[1..]);
    }
  }

  /** While anything is queued or on its way, some steps lead to one more token being handed out. */
  lemma {:induction false} StillFlows(s: State, token: Token) returns (steps: seq<Step>)
    requires Coming(s) > 0
    ensures |HandedOut(Run(s, steps).left)| == |HandedOut(s.left)| + 1
    decreases s.prefilling, s.replenishing, |s.queue| == 0
  {
    if s.prefilling == 0 && s.queue != [] {
      steps := [Mint(POOL_AMOUNT, None)] + [];
    } else {
      var done := if s.prefilling > 0 then PrefillDone(token) else ReplenishDone(token);
      var rest := StillFlows(Apply(s, done), token);
      steps := [done] + rest;
    }
  }

  /** The pool is dry for good exactly when nothing is queued and nothing is on its way. */
  lemma DryExactly(s: State)
    ensures Coming(s) == 0 <==> forall steps :: HandedOut(Run(s, steps).left) == HandedOut(s.left)
  {
    if Coming(s) == 0 {
      forall steps ensures HandedOut(Run(s, steps).left) == HandedOut(s.left) { DryStaysDry(s, steps); }
    } else {
      var steps := StillFlows(s, "");
      assert HandedOut(Run(s, steps).left) != HandedOut(s.left);
    }
  }

  /** The object: its queue under the lock, and how many replenish threads it has started that still run. */
  class Pool {
    var queue: seq<Token>
    var threads: nat

    /** The queue and thread count a machine state shows. */
    ghost predicate Shows(s: State)
      reads this
    {
      queue == s.queue && threads == s.replenishing && s.prefilling == 0
    }

    /** _prefill: one mint call per slot, each token queued as it comes; None is a failed call. */
    constructor (answers: seq<Option<Token>>)
      ensures Shows(Run(Initial(|answers|), PrefillSteps(answers))) && queue == Came(answers) && threads == 0
    {
      queue, threads := [], 0;
      new;
      ghost var s := Initial(|answers|);
      for i := 0 to |answers|
        invariant queue == Came(answers[..i])
        invariant queue == s.queue && threads == 0 == s.replenishing && s.prefilling == |answers| - i
        invariant Run(Initial(|answers|), PrefillSteps(answers)) == Run(s, PrefillSteps(answers[i..]))
      {
        assert answers[i..][0] == answers[i] && answers[i..][1..] == answers[i + 1..];
        assert answers[..i + 1][..i] == answers[..i];
        if answers[i].Some? { queue := queue + [answers[i].value]; }
        s := Apply(s, PrefillStep(answers[i]));
      }
      assert answers[|answers|..] == [] && answers[..|answers|] == answers;
    }

    /** mint: from the queue where it can, past it otherwise; None is the minter's failure. */
    method MintToken(ghost s: State, amount: int, direct: Option<Token>) returns (token: Option<Token>, ghost t: State)
      requires Shows(s)
      modifies this
      ensures t == Apply(s, Mint(amount, direct)) && Shows(t)
      ensures token == if amount == POOL_AMOUNT && old(queue) != [] then Some(old(queue)[0]) else direct
      ensures amount == 4 && old(queue) != [] ==>
                token == Some(old(queue)[0]) && queue == old(queue)[1..] && threads == old(threads) + if |queue| < 3 then 1 else 0
      ensures amount != 4 || old(queue) == [] ==> token == direct && queue == old(queue) && threads == old(threads)
    {
      t := Apply(s, Mint(amount, direct));
      if amount == POOL_AMOUNT {
        if |queue| > 0 {
          token := Some(queue[0]);
          queue := queue[1..];
          if |queue| < LOW { threads := threads + 1; }
          return;
        }
      }
      token := direct;
    }

    /** mint_fresh: past the queue in any case. */
    method MintFreshToken(ghost s: State, direct: Option<Token>) returns (token: Option<Token>, ghost t: State)
      requires Shows(s)
      ensures t == Apply(s, MintFresh(direct)) && Shows(t)
      ensures token == direct && t.queue == s.queue && t.left == s.left
      ensures t.direct == s.direct + if direct.Some? then [direct.value] else []
    {
      t := Apply(s, MintFresh(direct));
      token := direct;
    }

    /** A replenish thread ends. */
    method Replenish(ghost s: State, answer: Option<Token>) returns (ghost t: State)
      requires Shows(s) && threads > 0
      modifies this
      ensures t == Apply(s, if answer.Some? then ReplenishDone(answer.value) else ReplenishFailed) && Shows(t)
      ensures threads == old(threads) - 1 && queue == old(queue) + if answer.Some? then [answer.value] else []
    {
      t := Apply(s, if answer.Some? then ReplenishDone(answer.value) else ReplenishFailed);
      if answer.Some? { queue := queue + [answer.value]; }
      threads := threads - 1;
    }

    method DrainAll(ghost s: State) returns (n: nat, ghost t: State)
      requires Shows(s)
      modifies this
      ensures t == Apply(s, Drain) && Shows(t) && n == |old(queue)| && queue == [] && threads == old(threads)
    {
      t := Apply(s, Drain);
      n := |queue|;
      queue := [];
    }
  }

  /** The answers that came, in order. */
  function Came(answers: seq<Option<Token>>): seq<Token> {
    if answers == [] then [] else
      var n := |answers| - 1;
      Came(answers[..n]) + if answers[n].Some? then [answers[n].value] else []
  }

  function PrefillStep(answer: Option<Token>): Step { if answer.Some? then PrefillDone(answer.value) else PrefillFailed }

  function PrefillSteps(answers: seq<Option<Token>>): seq<Step> {
    if answers == [] then [] else [PrefillStep(answers[0])] + PrefillSteps(answers[1..])
  }
}
