/**
 The mock Cashu mint (lib/mock_mint.py): blind signatures over an abstract group, and the spent set over
 whole runs of requests. One request is one step.
 */
module MockMint {
  import opened Prelude

  // ---- the curve ---------------------------------------------------------------------

  /** The group the mint computes in, hash_to_curve, and the text form of a point and its parser. */
  datatype Curve<!P(!new)> = Curve(
    add: (P, P) -> P, neg: P -> P, zero: P, base: P, act: (nat, P) -> P,
    hash: string -> Option<P>, hex: P -> string, parse: string -> Option<P>)

  ghost predicate Associates<P(!new)>(c: Curve<P>) { forall x, y, z :: c.add(c.add(x, y), z) == c.add(x, c.add(y, z)) }

  ghost predicate Cancels<P(!new)>(c: Curve<P>) { forall x :: c.add(x, c.neg(x)) == c.zero && c.add(x, c.zero) == x }

  ghost predicate ScalesLawfully<P(!new)>(c: Curve<P>) {
    && (forall k, x, y :: c.act(k, c.add(x, y)) == c.add(c.act(k, x), c.act(k, y)))
    && (forall j, k, x :: c.act(j, c.act(k, x)) == c.act(k, c.act(j, x)))
  }

  ghost predicate PointsReadBack<P(!new)>(c: Curve<P>) { forall x :: c.parse(c.hex(x)) == Some(x) }

  /** An abelian group on which scalars act, and a text form that reads back. */
  ghost predicate Lawful<P(!new)>(c: Curve<P>) { Associates(c) && Cancels(c) && ScalesLawfully(c) && PointsReadBack(c) }

  type Keys = map<int, nat>

  /** A proof as sent; Malformed stands for an object without the three fields. */
  datatype Proof = Malformed | Proof(amount: int, secret: string, c: string)

  datatype Output = Output(amount: int, b: string)

  datatype Signature = Signature(amount: int, c: string, id: string)

  /** verify_proof. */
  predicate Verifies<P(!new)>(curve: Curve<P>, keys: Keys, p: Proof) {
    && p.Proof? && p.amount in keys && curve.hash(p.secret).Some?
    && curve.hex(curve.act(keys[p.amount], curve.hash(p.secret).value)) == p.c
  }

  /** create_proof; None where the original raises. */
  function CreateProof<P(!new)>(curve: Curve<P>, keys: Keys, amount: int, secret: string): Option<Proof> {
    var y := curve.hash(secret);
    if y.None? || amount !in keys then None
    else Some(Proof(amount, secret, curve.hex(curve.act(keys[amount], y.value))))
  }

  function Sign<P(!new)>(curve: Curve<P>, keys: Keys, id: string, out: Output): Option<Signature> {
    var b := curve.parse(out.b);
    if b.None? || out.amount !in keys then None
    else Some(Signature(out.amount, curve.hex(curve.act(keys[out.amount], b.value)), id))
  }

  /** The wallet's side: blind the point of a secret with r, and take r times the mint's public key off again. */
  function Blind<P(!new)>(curve: Curve<P>, y: P, r: nat): string {
    curve.hex(curve.add(y, curve.act(r, curve.base)))
  }

  function Unblind<P(!new)>(curve: Curve<P>, signed: P, r: nat, key: nat): string {
    curve.hex(curve.add(signed, curve.neg(curve.act(r, curve.act(key, curve.base)))))
  }

  /** The five instances of the laws that unblinding uses. */
  ghost predicate UnblindingLaws<P(!new)>(curve: Curve<P>, y: P, r: nat, k: nat) {
    var mask := curve.act(k, curve.act(r, curve.base));
    && mask == curve.act(r, curve.act(k, curve.base))
    && curve.act(k, curve.add(y, curve.act(r, curve.base))) == curve.add(curve.act(k, y), mask)
    && curve.add(curve.add(curve.act(k, y), mask), curve.neg(mask)) == curve.add(curve.act(k, y), curve.add(mask, curve.neg(mask)))
    && curve.add(mask, curve.neg(mask)) == curve.zero
    && curve.add(curve.act(k, y), curve.zero) == curve.act(k, y)
  }

  lemma LawsApply<P(!new)>(curve: Curve<P>, y: P, r: nat, k: nat)
    requires Lawful(curve)
    ensures UnblindingLaws(curve, y, r, k)
  {
  }

  /** The proof a wallet makes from a signed output. */
  function WalletProof<P(!new)>(curve: Curve<P>, keys: Keys, s: Signature, secret: string, r: nat): Proof {
    var signed := curve.parse(s.c);
    if signed.None? || s.amount !in keys then Malformed
    else Proof(s.amount, secret, Unblind(curve, signed.value, r, keys[s.amount]))
  }

  lemma ReadsBack<P(!new)>(curve: Curve<P>, x: P)
    requires Lawful(curve)
    ensures curve.parse(curve.hex(x)) == Some(x)
  {
  }

  lemma WalletComputes<P(!new)>(curve: Curve<P>, keys: Keys, id: string, amount: int, secret: string, r: nat)
    requires curve.hash(secret).Some? && amount in keys
    requires var b := curve.add(curve.hash(secret).value, curve.act(r, curve.base));
             var signed := curve.act(keys[amount], b);
             && curve.parse(curve.hex(b)) == Some(b) && curve.parse(curve.hex(signed)) == Some(signed)
             && curve.add(signed, curve.neg(curve.act(r, curve.act(keys[amount], curve.base)))) == curve.act(keys[amount], curve.hash(secret).value)
    ensures var s := Sign(curve, keys, id, Output(amount, Blind(curve, curve.hash(secret).value, r)));
            && s.Some? && s.value.amount == amount
            && Some(WalletProof(curve, keys, s.value, secret, r)) == CreateProof(curve, keys, amount, secret)
            && Verifies(curve, keys, WalletProof(curve, keys, s.value, secret, r))
  {
  }

  /** BDHKE: the mint signs every blinded output of a known amount, and the unblinded signature is the created proof. */
  lemma BlindSignatureVerifies<P(!new)>(curve: Curve<P>, keys: Keys, id: string, amount: int, secret: string, r: nat)
    requires Lawful(curve) && curve.hash(secret).Some? && amount in keys
    ensures var s := Sign(curve, keys, id, Output(amount, Blind(curve, curve.hash(secret).value, r)));
            && s.Some? && s.value.amount == amount
            && Some(WalletProof(curve, keys, s.value, secret, r)) == CreateProof(curve, keys, amount, secret)
            && Verifies(curve, keys, WalletProof(curve, keys, s.value, secret, r))
  {
    var y, k := curve.hash(secret).value, keys[amount];
    LawsApply(curve, y, r, k);
    ReadsBack(curve, curve.add(y, curve.act(r, curve.base)));
    ReadsBack(curve, curve.act(k, curve.add(y, curve.act(r, curve.base))));
    WalletComputes(curve, keys, id, amount, secret, r);
  }

  /** A proof verifies exactly when it is the one create_proof would make for its amount and secret. */
  lemma VerifiesExactlyCreated<P(!new)>(curve: Curve<P>, keys: Keys, p: Proof)
    requires p.Proof?
    ensures Verifies(curve, keys, p) <==> CreateProof(curve, keys, p.amount, p.secret) == Some(p)
  {
  }

  // ---- one swap ------------------------------------------------------------------------

  datatype Reason = InvalidProof | AlreadySpent

  datatype Response = Injected(code: int) | Rejected(reason: Reason) | Raised | Signed(signatures: seq<Signature>)

  datatype State = State(secrets: set<string>, ys: set<string>, errorCount: int, errorCode: int)

  /** What the input loop leaves: the spent sets, the secrets it marked, and why it stopped early, if it did. */
  datatype Intake = Intake(secrets: set<string>, ys: set<string>, marked: seq<string>, refusal: Option<Reason>)

  function YOf<P(!new)>(curve: Curve<P>, secret: string): string {
    if curve.hash(secret).Some? then curve.hex(curve.hash(secret).value) else ""
  }

  function TakeInputs<P(!new)>(curve: Curve<P>, keys: Keys, inputs: seq<Proof>, secrets: set<string>, ys: set<string>): Intake
    decreases |inputs|
  {
    if inputs == [] then Intake(secrets, ys, [], None)
    else if !Verifies(curve, keys, inputs[0]) then Intake(secrets, ys, [], Some(InvalidProof))
    else if inputs[0].secret in secrets then Intake(secrets, ys, [], Some(AlreadySpent))
    else
      var secret := inputs[0].secret;
      var rest := TakeInputs(curve, keys, inputs[1..], secrets + {secret}, ys + {YOf(curve, secret)});
      rest.(marked := [secret] + rest.marked)
  }

  /** None where signing raises. */
  function SignAll<P(!new)>(curve: Curve<P>, keys: Keys, id: string, outputs: seq<Output>): Option<seq<Signature>> {
    if outputs == [] then Some([]) else
      var s, rest := Sign(curve, keys, id, outputs[0]), SignAll(curve, keys, id, outputs[1..]);
      if s.Some? && rest.Some? then Some([s.value] + rest.value) else None
  }

  /** One signature an output, in order, with the key of its amount; or none, and some output cannot be signed. */
  lemma {:induction false} SignAllExactly<P(!new)>(curve: Curve<P>, keys: Keys, id: string, outputs: seq<Output>)
    ensures SignAll(curve, keys, id, outputs).None? ==>
              exists i :: 0 <= i < |outputs| && (curve.parse(outputs[i].b).None? || outputs[i].amount !in keys)
    ensures var all := SignAll(curve, keys, id, outputs);
            all.Some? ==>
              && |all.value| == |outputs|
              && forall i :: 0 <= i < |outputs| ==>
                   && curve.parse(outputs[i].b).Some? && outputs[i].amount in keys
                   && all.value[i].amount == outputs[i].amount && all.value[i].id == id
                   && all.value[i].c == curve.hex(curve.act(keys[outputs[i].amount], curve.parse(outputs[i].b).value))
  {
    if outputs != [] {
      var rest := outputs[1..];
      SignAllExactly(curve, keys, id, rest);
      assert forall i :: 0 < i < |outputs| ==> outputs[i] == rest[i - 1];
      if SignAll(curve, keys, id, rest).None? {
        var i :| 0 <= i < |rest| && (curve.parse(rest[i].b).None? || rest[i].amount !in keys);
        assert rest[i] == outputs[i + 1];
      }
    }
  }

  datatype Request = Swap(inputs: seq<Proof>, outputs: seq<Output>) | SetErrors(count: int, code: int)

  datatype Served = Served(state: State, response: Response, marked: seq<string>)

  function Serve<P(!new)>(curve: Curve<P>, keys: Keys, id: string, s: State, request: Request): Served {
    match request
    case SetErrors(count, code) => Served(s.(errorCount := count, errorCode := code), Signed([]), [])
    case Swap(inputs, outputs) =>
      if s.errorCount > 0 then
        Served(s.(errorCount := s.errorCount - 1), Injected(if s.errorCode == 0 then 429 else s.errorCode), [])
      else
        var taken := TakeInputs(curve, keys, inputs, s.secrets, s.ys);
        var t := s.(secrets := taken.secrets, ys := taken.ys);
        if taken.refusal.Some? then Served(t, Rejected(taken.refusal.value), taken.marked)
        else
          var signatures := SignAll(curve, keys, id, outputs);
          Served(t, if signatures.Some? then Signed(signatures.value) else Raised, taken.marked)
  }

  class Mint<P(!new)> {
    const curve: Curve<P>
    const keys: Keys
    const keysetId: string
    var spentSecrets: set<string>
    var spentYs: set<string>
    var swapErrorCount: int
    var swapErrorCode: int

    function Abstract(): State
      reads this
    {
      State(spentSecrets, spentYs, swapErrorCount, swapErrorCode)
    }

    constructor (curve: Curve<P>, keys: Keys, keysetId: string)
      ensures Abstract() == State({}, {}, 0, 0) && this.curve == curve && this.keys == keys && this.keysetId == keysetId
    {
      this.curve, this.keys, this.keysetId := curve, keys, keysetId;
      spentSecrets, spentYs, swapErrorCount, swapErrorCode := {}, {}, 0, 0;
    }

    /** POST /v1/swap; `marked` are the secrets it marks spent. */
    method HandleSwap(inputs: seq<Proof>, outputs: seq<Output>) returns (response: Response, ghost marked: seq<string>)
      modifies this
      ensures Abstract() == Serve(curve, keys, keysetId, old(Abstract()), Swap(inputs, outputs)).state
      ensures response == Serve(curve, keys, keysetId, old(Abstract()), Swap(inputs, outputs)).response
      // an injected error comes first, and touches nothing but its counter
      ensures old(swapErrorCount) > 0 ==>
                response == Injected(if old(swapErrorCode) == 0 then 429 else old(swapErrorCode))
                && swapErrorCount == old(swapErrorCount) - 1 && spentSecrets == old(spentSecrets) && spentYs == old(spentYs)
      // otherwise the secrets of the first inputs are marked: verifying ones, unspent and distinct
      ensures old(swapErrorCount) <= 0 ==>
                && swapErrorCount == old(swapErrorCount) && |marked| <= |inputs| && Distinct(marked)
                && (forall i :: 0 <= i < |marked| ==> Verifies(curve, keys, inputs[i]) && inputs[i].secret == marked[i])
                && (forall x :: x in marked ==> x !in old(spentSecrets)) && spentSecrets == old(spentSecrets) + (set x | x in marked)
      // the next one is refused for what is wrong with it
      ensures response == Rejected(InvalidProof) <==>
                (old(swapErrorCount) <= 0 && |marked| < |inputs| && !Verifies(curve, keys, inputs[|marked|]))
      ensures response == Rejected(AlreadySpent) <==>
                (old(swapErrorCount) <= 0 && |marked| < |inputs| && Verifies(curve, keys, inputs[|marked|])
                 && (inputs[|marked|].secret in old(spentSecrets) || inputs[|marked|].secret in marked))
      // or all are taken, and every output is signed with the key of its amount, unless one cannot be
      ensures response.Signed? || response.Raised? <==> (old(swapErrorCount) <= 0 && |marked| == |inputs|)
      ensures response.Raised? ==> exists i :: 0 <= i < |outputs| && (curve.parse(outputs[i].b).None? || outputs[i].amount !in keys)
      ensures response.Signed? ==>
                && |response.signatures| == |outputs|
                && forall i :: 0 <= i < |outputs| ==>
                     && curve.parse(outputs[i].b).Some? && outputs[i].amount in keys
                     && response.signatures[i].amount == outputs[i].amount && response.signatures[i].id == keysetId
                     && response.signatures[i].c == curve.hex(curve.act(keys[outputs[i].amount], curve.parse(outputs[i].b).value))
    {
      marked := [];
      if swapErrorCount > 0 {
        swapErrorCount := swapErrorCount - 1;
        return Injected(if swapErrorCode == 0 then 429 else swapErrorCode), marked;
      }
      marked := TakeInputs(curve, keys, inputs, spentSecrets, spentYs).marked;
      MarkedIsPrefix(curve, keys, inputs, spentSecrets, spentYs);
      MarkedIsNew(curve, keys, inputs, spentSecrets, spentYs);
      RefusedAt(curve, keys, inputs, spentSecrets, spentYs);
      var refusal := MarkInputs(inputs);
      if refusal.Some? { return Rejected(refusal.value), marked; }
      SignAllExactly(curve, keys, keysetId, outputs);
      response := SignOutputs(outputs);
    }

    /** The input loop: each is verified, looked up and marked in turn, up to the first that is refused. */
    method MarkInputs(inputs: seq<Proof>) returns (refusal: Option<Reason>)
      modifies this
      ensures var all := TakeInputs(curve, keys, inputs, old(spentSecrets), old(spentYs));
              spentSecrets == all.secrets && spentYs == all.ys && refusal == all.refusal
      ensures swapErrorCount == old(swapErrorCount) && swapErrorCode == old(swapErrorCode)
    {
      ghost var all := TakeInputs(curve, keys, inputs, spentSecrets, spentYs);
      for i := 0 to |inputs|
        invariant swapErrorCount == old(swapErrorCount) && swapErrorCode == old(swapErrorCode)
        invariant var rest := TakeInputs(curve, keys, inputs[i..], spentSecrets, spentYs);
                  rest.secrets == all.secrets && rest.ys == all.ys && rest.refusal == all.refusal
      {
        assert inputs[i..][0] == inputs[i] && inputs[i..][1..] == inputs[i + 1..];
        if !Verifies(curve, keys, inputs[i]) { return Some(InvalidProof); }
        var secret := inputs[i].secret;
        if secret in spentSecrets { return Some(AlreadySpent); }
        spentSecrets := spentSecrets + {secret};
        spentYs := spentYs + {YOf(curve, secret)};
      }
      assert inputs[|inputs|..] == [];
      refusal := None;
    }

    method SignOutputs(outputs: seq<Output>) returns (response: Response)
      ensures var all := SignAll(curve, keys, keysetId, outputs);
              response == if all.Some? then Signed(all.value) else Raised
    {
      var signatures: seq<Signature> := [];
      for i := 0 to |outputs|
        invariant var all, rest := SignAll(curve, keys, keysetId, outputs), SignAll(curve, keys, keysetId, outputs[i..]);
                  all.Some? == rest.Some? && (all.Some? ==> all.value == signatures + rest.value)
      {
        assert outputs[i..][0] == outputs[i] && outputs[i..][1..] == outputs[i + 1..];
        var s := Sign(curve, keys, keysetId, outputs[i]);
        if s.None? { return Raised; }
        signatures := signatures + [s.value];
      }
      assert outputs[|outputs|..] == [];
      response := Signed(signatures);
    }

    /** SPENT exactly for the points in the spent set, in the order asked. */
    method HandleCheckstate(ys: seq<string>) returns (states: seq<(string, bool)>)
      ensures |states| == |ys| && forall i :: 0 <= i < |ys| ==> states[i] == (ys[i], ys[i] in spentYs)
    {
      states := [];
      for i := 0 to |ys|
        invariant |states| == i && forall j :: 0 <= j < i ==> states[j] == (ys[j], ys[j] in spentYs)
      {
        states := states + [(ys[i], ys[i] in spentYs)];
      }
    }
  }

  // ---- runs ------------------------------------------------------------------------------

  /** The state after a run, and every secret marked spent, in order. */
  function Run<P(!new)>(curve: Curve<P>, keys: Keys, id: string, s: State, requests: seq<Request>): (State, seq<string>)
    decreases |requests|
  {
    if requests == [] then (s, []) else
      var served := Serve(curve, keys, id, s, requests[0]);
      var rest := Run(curve, keys, id, served.state, requests[1..]);
      (rest.0, served.marked + rest.1)
  }

  function Images<P(!new)>(curve: Curve<P>, secrets: set<string>): set<string> {
    set secret | secret in secrets :: YOf(curve, secret)
  }

  /** What marking a list of secrets on top of a state means. */
  ghost predicate Marks<P(!new)>(curve: Curve<P>, before: set<string>, after: set<string>, afterYs: set<string>, marked: seq<string>) {
    && Distinct(marked)
    && (forall x :: x in marked ==> x !in before)
    && after == before + (set x | x in marked)
    && afterYs == Images(curve, after)
  }

  lemma {:induction false} InputsMark<P(!new)>(curve: Curve<P>, keys: Keys, inputs: seq<Proof>, secrets: set<string>, ys: set<string>)
    requires ys == Images(curve, secrets)
    ensures var t := TakeInputs(curve, keys, inputs, secrets, ys);
            Marks(curve, secrets, t.secrets, t.ys, t.marked)
    decreases |inputs|
  {
    if inputs != [] && Verifies(curve, keys, inputs[0]) && inputs[0].secret !in secrets {
      var secret := inputs[0].secret;
      var ys' := ys + {YOf(curve, secret)};
      assert ys' == Images(curve, secrets + {secret});
      InputsMark(curve, keys, inputs[1..], secrets + {secret}, ys');
    }
  }

  lemma MarksCompose<P(!new)>(curve: Curve<P>, a: set<string>, b: set<string>, bYs: set<string>,
        c: set<string>, cYs: set<string>, first: seq<string>, second: seq<string>)
    requires Marks(curve, a, b, bYs, first) && Marks(curve, b, c, cYs, second)
    ensures Marks(curve, a, c, cYs, first + second)
  {
    forall i, j | 0 <= i < j < |first + second| ensures (first + second)[i] != (first + second)[j] {
      if i < |first| && |first| <= j {
        assert first[i] in b && second[j - |first|] !in b;
      }
    }
  }

  /**
   Over any run, with refused swaps, half-processed inputs, raised outputs and injected errors: every secret
   is marked at most once, the spent set is exactly what was there and what was marked, and the spent points
   are exactly the images of the spent secrets.
   */
  lemma {:induction false} NoDoubleSpend<P(!new)>(curve: Curve<P>, keys: Keys, id: string, s: State, requests: seq<Request>)
    requires s.ys == Images(curve, s.secrets)
    ensures var (t, marked) := Run(curve, keys, id, s, requests);
            Marks(curve, s.secrets, t.secrets, t.ys, marked)
    decreases |requests|
  {
    if requests == [] {
    } else {
      var served := Serve(curve, keys, id, s, requests[0]);
      ServeMarks(curve, keys, id, s, requests[0]);
      NoDoubleSpend(curve, keys, id, served.state, requests[1..]);
      var (t, marked) := Run(curve, keys, id, served.state, requests[1..]);
      MarksCompose(curve, s.secrets, served.state.secrets, served.state.ys, t.secrets, t.ys, served.marked, marked);
    }
  }

  lemma ServeMarks<P(!new)>(curve: Curve<P>, keys: Keys, id: string, s: State, request: Request)
    requires s.ys == Images(curve, s.secrets)
    ensures var served := Serve(curve, keys, id, s, request);
            Marks(curve, s.secrets, served.state.secrets, served.state.ys, served.marked)
  {
    if request.Swap? && s.errorCount <= 0 {
      InputsMark(curve, keys, request.inputs, s.secrets, s.ys);
    }
  }

  /** What is marked was not spent before, is marked once, and is all that is new in the spent set. */
  lemma {:induction false} MarkedIsNew<P(!new)>(curve: Curve<P>, keys: Keys, inputs: seq<Proof>, secrets: set<string>, ys: set<string>)
    ensures var t := TakeInputs(curve, keys, inputs, secrets, ys);
            Distinct(t.marked) && (forall x :: x in t.marked ==> x !in secrets) && t.secrets == secrets + set x | x in t.marked
    decreases |inputs|
  {
    if inputs != [] && Verifies(curve, keys, inputs[0]) && inputs[0].secret !in secrets {
      var secret := inputs[0].secret;
      MarkedIsNew(curve, keys, inputs[1..], secrets + {secret}, ys + {YOf(curve, secret)});
    }
  }

  /** Where the inputs stop being taken, and why: the next one does not verify, or its secret is spent or among those just marked. */
  lemma {:induction false} RefusedAt<P(!new)>(curve: Curve<P>, keys: Keys, inputs: seq<Proof>, secrets: set<string>, ys: set<string>)
    ensures var t := TakeInputs(curve, keys, inputs, secrets, ys);
            var k := |t.marked|;
            && k <= |inputs| && (t.refusal.None? <==> k == |inputs|)
            && (t.refusal == Some(InvalidProof) <==> k < |inputs| && !Verifies(curve, keys, inputs[k]))
            && (t.refusal == Some(AlreadySpent) <==>
                  k < |inputs| && Verifies(curve, keys, inputs[k]) && (inputs[k].secret in secrets || inputs[k].secret in t.marked))
    decreases |inputs|
  {
    if inputs != [] && Verifies(curve, keys, inputs[0]) && inputs[0].secret !in secrets {
      var secret := inputs[0].secret;
      RefusedAt(curve, keys, inputs[1..], secrets + {secret}, ys + {YOf(curve, secret)});
    }
  }

  /** What one swap marks: the secrets of its first inputs, in order, each a proof that verifies; all of them if nothing was refused. */
  lemma {:induction false} MarkedIsPrefix<P(!new)>(curve: Curve<P>, keys: Keys, inputs: seq<Proof>, secrets: set<string>, ys: set<string>)
    ensures var t := TakeInputs(curve, keys, inputs, secrets, ys);
            && |t.marked| <= |inputs| && (t.refusal.None? <==> |t.marked| == |inputs|)
            && forall i :: 0 <= i < |t.marked| ==> Verifies(curve, keys, inputs[i]) && inputs[i].secret == t.marked[i]
    decreases |inputs|
  {
    if inputs != [] && Verifies(curve, keys, inputs[0]) && inputs[0].secret !in secrets {
      var secret := inputs[0].secret;
      MarkedIsPrefix(curve, keys, inputs[1..], secrets + {secret}, ys + {YOf(curve, secret)});
    }
  }

  /** The request is a swap with a verifying proof of this secret among its inputs. */
  ghost predicate Spends<P(!new)>(curve: Curve<P>, keys: Keys, request: Request, secret: string) {
    request.Swap? && exists p :: p in request.inputs && Verifies(curve, keys, p) && p.secret == secret
  }

  /** Nothing is marked over a run but secrets some request of the run really spent. */
  lemma {:induction false} MarkedWereSpent<P(!new)>(curve: Curve<P>, keys: Keys, id: string, s: State, requests: seq<Request>, secret: string)
    requires secret in Run(curve, keys, id, s, requests).1
    ensures exists i :: 0 <= i < |requests| && Spends(curve, keys, requests[i], secret)
    decreases |requests|
  {
    var served := Serve(curve, keys, id, s, requests[0]);
    if secret in served.marked {
      MarkedIsPrefix(curve, keys, requests[0].inputs, s.secrets, s.ys);
      var k :| 0 <= k < |served.marked| && served.marked[k] == secret;
      assert requests[0].inputs[k] in requests[0].inputs;
      assert Spends(curve, keys, requests[0], secret);
    } else {
      MarkedWereSpent(curve, keys, id, served.state, requests[1..], secret);
      var i :| 0 <= i < |requests[1..]| && Spends(curve, keys, requests[1..][i], secret);
      assert requests[i + 1] == requests[1..][i];
    }
  }

  /** A swap takes all its inputs exactly when every one verifies, none is spent and no two share a secret. */
  lemma {:induction false} AllTakenIff<P(!new)>(curve: Curve<P>, keys: Keys, inputs: seq<Proof>, secrets: set<string>, ys: set<string>)
    ensures TakeInputs(curve, keys, inputs, secrets, ys).refusal.None? <==>
            (&& (forall p :: p in inputs ==> Verifies(curve, keys, p) && p.secret !in secrets)
             && (forall i, j :: 0 <= i < j < |inputs| && inputs[i].Proof? && inputs[j].Proof? ==> inputs[i].secret != inputs[j].secret))
    decreases |inputs|
  {
    if inputs != [] {
      var first, rest := inputs[0], inputs[1..];
      if Verifies(curve, keys, first) && first.secret !in secrets {
        AllTakenIff(curve, keys, rest, secrets + {first.secret}, ys + {YOf(curve, first.secret)});
        assert inputs == [first] + rest;
        assert forall k :: 0 <= k < |rest| ==> rest[k] == inputs[k + 1];
      }
    }
  }

  /** After any run of a fresh mint, checkstate calls a point spent exactly when it is the image of a marked secret. */
  lemma SpentExactlyMarked<P(!new)>(curve: Curve<P>, keys: Keys, id: string, requests: seq<Request>, y: string)
    ensures var (t, marked) := Run(curve, keys, id, State({}, {}, 0, 0), requests);
            && (y in t.ys <==> exists x :: x in marked && YOf(curve, x) == y)
            && (y in t.ys <==> exists x :: x in marked && curve.hash(x).Some? && curve.hex(curve.hash(x).value) == y)
  {
    var s := State({}, {}, 0, 0);
    var (t, marked) := Run(curve, keys, id, s, requests);
    assert {} == Images(curve, {});
    NoDoubleSpend(curve, keys, id, s, requests);
    forall x | x in marked ensures curve.hash(x).Some? { MarkedWereSpent(curve, keys, id, s, requests, x); }
    if y in t.ys {
      var x :| x in marked && YOf(curve, x) == y;
      assert curve.hash(x).Some?;
    }
  }

  // ---- what was swapped out can be swapped in --------------------------------------------------

  /** A coin the wallet asks for: amount, its secret, and the blinding factor. */
  datatype Coin = Coin(amount: int, secret: string, r: nat)

  ghost predicate Mintable<P(!new)>(curve: Curve<P>, keys: Keys, coins: seq<Coin>) {
    forall i :: 0 <= i < |coins| ==> coins[i].amount in keys && curve.hash(coins[i].secret).Some?
  }

  function Blinded<P(!new)>(curve: Curve<P>, coins: seq<Coin>): (r: seq<Output>)
    requires forall i :: 0 <= i < |coins| ==> curve.hash(coins[i].secret).Some?
    ensures |r| == |coins|
  {
    if coins == [] then [] else
      [Output(coins[0].amount, Blind(curve, curve.hash(coins[0].secret).value, coins[0].r))] + Blinded(curve, coins[1..])
  }

  function Unblinded<P(!new)>(curve: Curve<P>, keys: Keys, signatures: seq<Signature>, coins: seq<Coin>): (r: seq<Proof>)
    requires |signatures| == |coins|
    ensures |r| == |coins|
  {
    if coins == [] then [] else
      [WalletProof(curve, keys, signatures[0], coins[0].secret, coins[0].r)] + Unblinded(curve, keys, signatures[1..], coins[1..])
  }

  /** The mint signs this coin's blinded output, and the wallet's proof from it verifies. */
  ghost predicate Comes<P(!new)>(curve: Curve<P>, keys: Keys, id: string, coin: Coin)
    requires curve.hash(coin.secret).Some?
  {
    var s := Sign(curve, keys, id, Output(coin.amount, Blind(curve, curve.hash(coin.secret).value, coin.r)));
    s.Some? && Verifies(curve, keys, WalletProof(curve, keys, s.value, coin.secret, coin.r))
  }

  lemma {:induction false} CoinsSigned<P(!new)>(curve: Curve<P>, keys: Keys, id: string, coins: seq<Coin>)
    requires Mintable(curve, keys, coins) && forall i :: 0 <= i < |coins| ==> Comes(curve, keys, id, coins[i])
    ensures var s := SignAll(curve, keys, id, Blinded(curve, coins));
            && s.Some? && |s.value| == |coins|
            && forall i :: 0 <= i < |coins| ==>
                 var p := Unblinded(curve, keys, s.value, coins)[i];
                 Verifies(curve, keys, p) && p.secret == coins[i].secret
  {
    if coins != [] {
      var first, rest := coins[0], coins[1..];
      CoinsSigned(curve, keys, id, rest);
      assert Comes(curve, keys, id, first);
      var outs := Blinded(curve, coins);
      assert outs[1..] == Blinded(curve, rest);
      var s := SignAll(curve, keys, id, outs);
      assert s.value[1..] == SignAll(curve, keys, id, Blinded(curve, rest)).value;
    }
  }

  lemma CoinsCome<P(!new)>(curve: Curve<P>, keys: Keys, id: string, coins: seq<Coin>)
    requires Lawful(curve) && Mintable(curve, keys, coins)
    ensures forall i :: 0 <= i < |coins| ==> Comes(curve, keys, id, coins[i])
  {
    forall i | 0 <= i < |coins| ensures Comes(curve, keys, id, coins[i]) {
      BlindSignatureVerifies(curve, keys, id, coins[i].amount, coins[i].secret, coins[i].r);
    }
  }

  /** A purse of verifying proofs is taken whole exactly when its secrets are distinct and unspent. */
  lemma PurseTaken<P(!new)>(curve: Curve<P>, keys: Keys, proofs: seq<Proof>, coins: seq<Coin>, secrets: set<string>, ys: set<string>)
    requires |proofs| == |coins|
    requires forall i :: 0 <= i < |coins| ==> Verifies(curve, keys, proofs[i]) && proofs[i].secret == coins[i].secret
    ensures TakeInputs(curve, keys, proofs, secrets, ys).refusal.None? <==>
            (forall i :: 0 <= i < |coins| ==> coins[i].secret !in secrets)
            && (forall i, j :: 0 <= i < j < |coins| ==> coins[i].secret != coins[j].secret)
  {
    AllTakenIff(curve, keys, proofs, secrets, ys);
    if forall p :: p in proofs ==> Verifies(curve, keys, p) && p.secret !in secrets {
      forall i | 0 <= i < |coins| ensures coins[i].secret !in secrets { assert proofs[i] in proofs; }
    }
  }

  /**
   A mint that has taken a swap's inputs signs every mintable coin asked for, and the unblinded coins are
   all taken by a later swap exactly when their secrets are distinct and unspent by then.
   */
  lemma SwappedCoinsSpend<P(!new)>(curve: Curve<P>, keys: Keys, id: string, s: State, inputs: seq<Proof>, coins: seq<Coin>, later: State)
    requires Lawful(curve) && Mintable(curve, keys, coins) && s.errorCount <= 0
    requires TakeInputs(curve, keys, inputs, s.secrets, s.ys).refusal.None?
    ensures var response := Serve(curve, keys, id, s, Swap(inputs, Blinded(curve, coins))).response;
            && response.Signed? && |response.signatures| == |coins|
            && (TakeInputs(curve, keys, Unblinded(curve, keys, response.signatures, coins), later.secrets, later.ys).refusal.None? <==>
                (forall i :: 0 <= i < |coins| ==> coins[i].secret !in later.secrets)
                && (forall i, j :: 0 <= i < j < |coins| ==> coins[i].secret != coins[j].secret))
  {
    CoinsCome(curve, keys, id, coins);
    SignedCoinsSpend(curve, keys, id, s, inputs, coins, later);
  }

  lemma SignedCoinsSpend<P(!new)>(curve: Curve<P>, keys: Keys, id: string, s: State, inputs: seq<Proof>, coins: seq<Coin>, later: State)
    requires Mintable(curve, keys, coins) && s.errorCount <= 0
    requires forall i :: 0 <= i < |coins| ==> Comes(curve, keys, id, coins[i])
    requires TakeInputs(curve, keys, inputs, s.secrets, s.ys).refusal.None?
    ensures var response := Serve(curve, keys, id, s, Swap(inputs, Blinded(curve, coins))).response;
            && response.Signed? && |response.signatures| == |coins|
            && (TakeInputs(curve, keys, Unblinded(curve, keys, response.signatures, coins), later.secrets, later.ys).refusal.None? <==>
                (forall i :: 0 <= i < |coins| ==> coins[i].secret !in later.secrets)
                && (forall i, j :: 0 <= i < j < |coins| ==> coins[i].secret != coins[j].secret))
  {
    CoinsSigned(curve, keys, id, coins);
    var signatures := SignAll(curve, keys, id, Blinded(curve, coins)).value;
    PurseTaken(curve, keys, Unblinded(curve, keys, signatures, coins), coins, later.secrets, later.ys);
  }
}
