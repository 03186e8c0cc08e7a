/** Tickets of concurrent calls, in whatever order they arrive: the gatekeeper's watermark climbs
    the longest chain of successive nonces, and stops for good at the first one that is missing. */
module Arrivals {
  import opened Bytes
  import opened Eip712
  import opened Verifier
  import opened Codec
  import opened Signer
  import opened Settlement
  import opened Pipeline

  // ------------------------------------------------------------------ chains of nonces

  /** Where a watermark ends up that takes a nonce exactly when it is the next one. */
  function Climb(last: nat, nonces: seq<nat>): nat
  {
    if nonces == [] then last
    else
      var mark := Climb(last, nonces[..|nonces| - 1]);
      if nonces[|nonces| - 1] == mark + 1 then mark + 1 else mark
  }

  /** The positions of last + 1, last + 2 and so on, one after another. */
  ghost predicate Chain(last: nat, nonces: seq<nat>, at: seq<nat>)
  {
    && (forall i | 0 <= i < |at| :: at[i] < |nonces| && nonces[at[i]] == last + 1 + i)
    && (forall i, j | 0 <= i < j < |at| :: at[i] < at[j])
  }

  lemma ClimbOneMore(last: nat, before: seq<nat>, n: nat)
    ensures var mark := Climb(last, before);
            Climb(last, before + [n]) == if n == mark + 1 then mark + 1 else mark
  {
    assert (before + [n])[..|before|] == before;
  }

  lemma {:induction false} ClimbBounds(last: nat, nonces: seq<nat>)
    ensures last <= Climb(last, nonces) <= last + |nonces|
  {
    if nonces != [] {
      ClimbBounds(last, nonces[..|nonces| - 1]);
    }
  }

  /** The watermark climbs a chain. */
  lemma {:induction false} ClimbIsChain(last: nat, nonces: seq<nat>) returns (at: seq<nat>)
    ensures Chain(last, nonces, at) && last + |at| == Climb(last, nonces)
  {
    at := [];
    if nonces != [] {
      var front := nonces[..|nonces| - 1];
      at := ClimbIsChain(last, front);
      if nonces[|front|] == Climb(last, front) + 1 {
        at := at + [|front|];
      }
    }
  }

  /** And no chain is longer. */
  lemma {:induction false} ClimbIsLongest(last: nat, nonces: seq<nat>, at: seq<nat>)
    requires Chain(last, nonces, at)
    ensures last + |at| <= Climb(last, nonces)
    decreases |nonces|
  {
    ClimbBounds(last, nonces);
    if at != [] {
      var n := |at| - 1;
      assert at[n] < |nonces|;
      var front := nonces[..|nonces| - 1];
      if at[n] < |front| {
        ClimbIsLongest(last, front, at);
      } else {
        ClimbIsLongest(last, front, at[..n]);
      }
    }
  }

  /** Everything is taken exactly when everything comes in order. */
  lemma {:induction false} ClimbsAllIff(last: nat, nonces: seq<nat>)
    ensures Climb(last, nonces) == last + |nonces| <==> forall k | 0 <= k < |nonces| :: nonces[k] == last + 1 + k
  {
    if nonces != [] {
      ClimbsAllIff(last, nonces[..|nonces| - 1]);
      ClimbBounds(last, nonces[..|nonces| - 1]);
    }
  }

  /** A nonce that never comes is never passed. */
  lemma {:induction false} ClimbStopsAt(last: nat, nonces: seq<nat>, missing: nat)
    requires last < missing && missing !in nonces
    ensures Climb(last, nonces) < missing
  {
    if nonces != [] {
      ClimbStopsAt(last, nonces[..|nonces| - 1], missing);
    }
  }

  // ---------------------------------------------------------------------- at the gate

  /** A ticket that is all right apart from its nonce, when it arrives. */
  ghost predicate FitNow(o: Oracle, separator: Bytes32, client: Address, s: Session, i: Input)
  {
    i.Arrive? && !s.gate.invalidated && Bound(o, separator, s.gate.commitment, i.t, i.signature, client, i.now)
  }

  /** The nonces of the tickets that were fit when they arrived, in that order. */
  ghost function FitNonces(o: Oracle, separator: Bytes32, client: Address, s: Session, inputs: seq<Input>): seq<nat>
  {
    if inputs == [] then []
    else
      var front, last := inputs[..|inputs| - 1], inputs[|inputs| - 1];
      FitNonces(o, separator, client, s, front)
      + if FitNow(o, separator, client, SessionRun(o, separator, client, s, front), last) then [last.t.nonce] else []
  }

  /** An input moves the watermark exactly when it is fit and has the next nonce. */
  lemma GateTakesNext(o: Oracle, separator: Bytes32, client: Address, s: Session, i: Input)
    ensures i.Arrive? ==>
              (!Rejects(o, separator, client, s, i)
               <==> FitNow(o, separator, client, s, i) && i.t.nonce == s.lastNonce + 1)
    ensures SessionStep(o, separator, client, s, i).lastNonce
            == if FitNow(o, separator, client, s, i) && i.t.nonce == s.lastNonce + 1 then s.lastNonce + 1
               else s.lastNonce
  {
    if i.Arrive? {
      DecideIff(o, separator, s.gate, i.t, i.signature, client, s.lastNonce, i.now);
    }
  }

  /** Whatever arrives in whatever order, the session's watermark climbs the fit nonces. */
  lemma {:induction false} GateClimbs(o: Oracle, separator: Bytes32, client: Address, s: Session, inputs: seq<Input>)
    ensures SessionRun(o, separator, client, s, inputs).lastNonce
            == Climb(s.lastNonce, FitNonces(o, separator, client, s, inputs))
  {
    if inputs != [] {
      var front, last := inputs[..|inputs| - 1], inputs[|inputs| - 1];
      var before := FitNonces(o, separator, client, s, front);
      GateClimbs(o, separator, client, s, front);
      GateTakesNext(o, separator, client, SessionRun(o, separator, client, s, front), last);
      if FitNow(o, separator, client, SessionRun(o, separator, client, s, front), last) {
        ClimbOneMore(s.lastNonce, before, last.t.nonce);
      } else {
        assert before + [] == before;
      }
    }
  }

  /** Which tickets get through: the links of the longest chain. */
  lemma AcceptedIff(o: Oracle, separator: Bytes32, client: Address, s: Session, inputs: seq<Input>, k: nat)
    requires k < |inputs| && inputs[k].Arrive?
    ensures var mid := SessionRun(o, separator, client, s, inputs[..k]);
            !Rejects(o, separator, client, mid, inputs[k])
            <==> && FitNow(o, separator, client, mid, inputs[k])
                 && inputs[k].t.nonce == Climb(s.lastNonce, FitNonces(o, separator, client, s, inputs[..k])) + 1
  {
    GateClimbs(o, separator, client, s, inputs[..k]);
    GateTakesNext(o, separator, client, SessionRun(o, separator, client, s, inputs[..k]), inputs[k]);
  }

  /** The session counts the longest chain of fit nonces from its watermark on. */
  lemma WatermarkIsLongestChain(o: Oracle, separator: Bytes32, client: Address, s: Session, inputs: seq<Input>)
    ensures var ns, now := FitNonces(o, separator, client, s, inputs), SessionRun(o, separator, client, s, inputs);
            && (exists at :: Chain(s.lastNonce, ns, at) && s.lastNonce + |at| == now.lastNonce)
            && (forall at :: Chain(s.lastNonce, ns, at) ==> s.lastNonce + |at| <= now.lastNonce)
  {
    var ns := FitNonces(o, separator, client, s, inputs);
    GateClimbs(o, separator, client, s, inputs);
    var best := ClimbIsChain(s.lastNonce, ns);
    forall at | Chain(s.lastNonce, ns, at) ensures s.lastNonce + |at| <= Climb(s.lastNonce, ns) {
      ClimbIsLongest(s.lastNonce, ns, at);
    }
  }

  // ------------------------------------------------------------------ from concurrent calls

  /** The ticket of a call arrives, or the provider's seed is rotated. */
  datatype Delivery = FromCall(caller: nat, now: Option<u64>) | Renewal(newSeed: Bytes32)

  predicate Deliverable(p: Pool, d: Delivery)
  {
    d.FromCall? ==> d.caller in p.calls && p.calls[d.caller].Returned?
  }

  predicate AllDeliverable(p: Pool, ds: seq<Delivery>)
  {
    forall i | 0 <= i < |ds| :: Deliverable(p, ds[i])
  }

  function InputOf(p: Pool, d: Delivery): Input
    requires Deliverable(p, d)
  {
    match d
    case Renewal(newSeed) => RotateTo(newSeed)
    case FromCall(c, now) => Arrive(Narrow(p.calls[c].ticket.payload), p.calls[c].ticket.signature, now)
  }

  function Delivered(p: Pool, ds: seq<Delivery>): (inputs: seq<Input>)
    requires AllDeliverable(p, ds)
    ensures |inputs| == |ds|
  {
    seq(|ds|, i requires 0 <= i < |ds| => InputOf(p, ds[i]))
  }

  /** The nonces of the calls whose tickets arrive, in that order. */
  function NoncesOf(p: Pool, ds: seq<Delivery>): seq<nat>
    requires AllDeliverable(p, ds)
  {
    if ds == [] then []
    else
      var last := ds[|ds| - 1];
      NoncesOf(p, ds[..|ds| - 1]) + if last.FromCall? then [p.calls[last.caller].Nonce()] else []
  }

  /** The pool that some interleaving leads to, with fewer than 2^64 calls. */
  ghost predicate Reached(me: Identity, actions: seq<Action>, p: Pool)
  {
    p == ActAll(me, actions) && |p.calls| < TWO_64
  }

  lemma DeliveredNonce(me: Identity, actions: seq<Action>, p: Pool, ds: seq<Delivery>, k: nat)
    requires Reached(me, actions, p) && AllDeliverable(p, ds)
    requires k < |ds| && ds[k].FromCall?
    ensures Delivered(p, ds)[k].Arrive? && Delivered(p, ds)[k].t.nonce == p.calls[ds[k].caller].Nonce()
  {
    TicketCarriesNonce(me, actions, ds[k].caller);
  }

  /** What is fit of a delivery is part of it; when everything is, it is the whole. */
  lemma {:induction false} FitOfDelivered(me: Identity, actions: seq<Action>, p: Pool, client: Address, s: Session,
                                          ds: seq<Delivery>, n: nat)
    requires Reached(me, actions, p) && AllDeliverable(p, ds) && n <= |ds|
    ensures AllDeliverable(p, ds[..n])
    ensures var ns := FitNonces(me.oracle, me.separator, client, s, Delivered(p, ds)[..n]);
            && (forall x | x in ns :: x in NoncesOf(p, ds[..n]))
            && (AllFit(me, client, s, Delivered(p, ds)) ==> ns == NoncesOf(p, ds[..n]))
  {
    if n > 0 {
      var inputs := Delivered(p, ds);
      FitOfDelivered(me, actions, p, client, s, ds, n - 1);
      assert inputs[..n][..n - 1] == inputs[..n - 1] && ds[..n][..n - 1] == ds[..n - 1];
      if ds[n - 1].FromCall? {
        DeliveredNonce(me, actions, p, ds, n - 1);
      }
    }
  }

  /** Each ticket is fit when it arrives. */
  ghost predicate AllFit(me: Identity, client: Address, s: Session, inputs: seq<Input>)
  {
    forall k | 0 <= k < |inputs| && inputs[k].Arrive? ::
      FitNow(me.oracle, me.separator, client, SessionRun(me.oracle, me.separator, client, s, inputs[..k]), inputs[k])
  }

  /** Nothing gets past the nonce of a call whose ticket never arrives, because it failed, or is
      still at work, or was lost: not in any order, not with any repetition or rotation. */
  lemma MissingCallStopsTheGate(me: Identity, actions: seq<Action>, p: Pool, client: Address, s: Session,
                                ds: seq<Delivery>, c: nat)
    requires Reached(me, actions, p) && AllDeliverable(p, ds)
    requires c in p.calls && s.lastNonce < p.calls[c].Nonce()
    requires forall i | 0 <= i < |ds| && ds[i].FromCall? :: ds[i].caller != c
    ensures SessionRun(me.oracle, me.separator, client, s, Delivered(p, ds)).lastNonce < p.calls[c].Nonce()
  {
    var inputs := Delivered(p, ds);
    assert inputs[..|ds|] == inputs && ds[..|ds|] == ds;
    FitOfDelivered(me, actions, p, client, s, ds, |ds|);
    AllocationIsExact(me, actions);
    NonceNotDelivered(p, ds, c);
    GateClimbs(me.oracle, me.separator, client, s, inputs);
    ClimbStopsAt(s.lastNonce, FitNonces(me.oracle, me.separator, client, s, inputs), p.calls[c].Nonce());
  }

  lemma {:induction false} NonceNotDelivered(p: Pool, ds: seq<Delivery>, c: nat)
    requires NoncesExact(p) && c in p.calls && AllDeliverable(p, ds)
    requires forall i | 0 <= i < |ds| && ds[i].FromCall? :: ds[i].caller != c
    ensures p.calls[c].Nonce() !in NoncesOf(p, ds)
  {
    if ds != [] {
      var last := ds[|ds| - 1];
      NonceNotDelivered(p, ds[..|ds| - 1], c);
      if last.FromCall? {
        assert Holds(p, c, p.calls[c].Nonce()) && Holds(p, last.caller, p.calls[last.caller].Nonce());
      }
    }
  }

  /** When each of N concurrent calls has its ticket delivered and each ticket is fit when it
      arrives, all of them are accepted if and only if they arrive in the order of their nonces. */
  lemma AllAcceptedIffInOrder(me: Identity, actions: seq<Action>, p: Pool, client: Address, s: Session,
                              ds: seq<Delivery>)
    requires Reached(me, actions, p) && AllDeliverable(p, ds)
    requires s.lastNonce == 0 && |NoncesOf(p, ds)| == |p.calls| && AllFit(me, client, s, Delivered(p, ds))
    ensures var ns, now := NoncesOf(p, ds), SessionRun(me.oracle, me.separator, client, s, Delivered(p, ds));
            now.lastNonce == |p.calls| <==> forall i, j | 0 <= i < j < |ns| :: ns[i] < ns[j]
  {
    var inputs, ns := Delivered(p, ds), NoncesOf(p, ds);
    assert inputs[..|ds|] == inputs && ds[..|ds|] == ds;
    FitOfDelivered(me, actions, p, client, s, ds, |ds|);
    AllocationIsExact(me, actions);
    GateClimbs(me.oracle, me.separator, client, s, inputs);
    ClimbsAllIff(0, ns);
    NoncesInRange(p, ds);
    if forall i, j | 0 <= i < j < |ns| :: ns[i] < ns[j] {
      IncreasingIsIdentity(ns);
    }
  }

  lemma {:induction false} NoncesInRange(p: Pool, ds: seq<Delivery>)
    requires NoncesExact(p) && AllDeliverable(p, ds)
    ensures forall x | x in NoncesOf(p, ds) :: 1 <= x <= |p.calls|
  {
    if ds != [] {
      var last := ds[|ds| - 1];
      NoncesInRange(p, ds[..|ds| - 1]);
      if last.FromCall? {
        assert Holds(p, last.caller, p.calls[last.caller].Nonce());
      }
    }
  }

  /** N increasing numbers between 1 and N are 1 to N. */
  lemma IncreasingIsIdentity(ns: seq<nat>)
    requires forall x | x in ns :: 1 <= x <= |ns|
    requires forall i, j | 0 <= i < j < |ns| :: ns[i] < ns[j]
    ensures forall k | 0 <= k < |ns| :: ns[k] == k + 1
  {
    forall k | 0 <= k < |ns| ensures ns[k] == k + 1 {
      AtLeast(ns, k);
      AtMost(ns, k);
    }
  }

  lemma {:induction false} AtLeast(ns: seq<nat>, k: nat)
    requires k < |ns| && (forall x | x in ns :: 1 <= x) && forall i, j | 0 <= i < j < |ns| :: ns[i] < ns[j]
    ensures ns[k] >= k + 1
  {
    assert ns[k] in ns;
    if k > 0 {
      AtLeast(ns, k - 1);
    }
  }

  lemma {:induction false} AtMost(ns: seq<nat>, k: nat)
    requires k < |ns| && (forall x | x in ns :: x <= |ns|) && forall i, j | 0 <= i < j < |ns| :: ns[i] < ns[j]
    ensures ns[k] <= k + 1
    decreases |ns| - k
  {
    assert ns[k] in ns;
    if k + 1 < |ns| {
      AtMost(ns, k + 1);
    }
  }

  // ------------------------------------------------------- one call after another, as a pool

  /** The calls of a conversation as actions, each completed before the next one starts. */
  function ActionsOf(turns: seq<Turn>): seq<Action>
  {
    if turns == [] then []
    else
      var front, last := turns[..|turns| - 1], turns[|turns| - 1];
      ActionsOf(front)
      + if last.Sign? then [Allocate(Calls(front)), Complete(Calls(front), last.request)] else []
  }

  /** Its tickets in the order of the calls, and its rotations. */
  function DeliveriesOf(me: Identity, turns: seq<Turn>): seq<Delivery>
  {
    if turns == [] then []
    else
      var front, last := turns[..|turns| - 1], turns[|turns| - 1];
      DeliveriesOf(me, front)
      + match last
        case Rotation(newSeed) => [Renewal(newSeed)]
        case Sign(request, _, arrival) =>
          if CanSign(me, Fetched(0, front), request) then [FromCall(Calls(front), arrival)] else []
  }

  lemma ActTwo(me: Identity, before: seq<Action>, a: Action, b: Action)
    ensures ActAll(me, before + [a, b]) == Act(me, Act(me, ActAll(me, before), a), b)
  {
    assert (before + [a, b])[..|before| + 1] == before + [a];
    assert (before + [a])[..|before|] == before;
  }

  lemma CallAlone(me: Identity, p: Pool, c: nat, request: Request)
    requires c !in p.calls
    ensures Act(me, Act(me, p, Allocate(c)), Complete(c, request))
            == Pool(NextNonce(p.watermark), p.calls[c := Ended(me, p.watermark, request)])
  {
    assert p.calls[c := Working(p.watermark)][c := Ended(me, p.watermark, request)]
        == p.calls[c := Ended(me, p.watermark, request)];
  }

  lemma {:induction false} SequentialPool(me: Identity, turns: seq<Turn>)
    requires |turns| < TWO_64
    ensures var p := ActAll(me, ActionsOf(turns));
            && p.watermark == Fetched(0, turns) && forall c :: c in p.calls <==> 0 <= c < Calls(turns)
  {
    FetchedIs(0, turns);
    if turns != [] {
      var front, last := turns[..|turns| - 1], turns[|turns| - 1];
      SequentialPool(me, front);
      FetchedIs(0, front);
      if last.Sign? {
        ActTwo(me, ActionsOf(front), Allocate(Calls(front)), Complete(Calls(front), last.request));
        CallAlone(me, ActAll(me, ActionsOf(front)), Calls(front), last.request);
      } else {
        assert ActionsOf(front) + [] == ActionsOf(front);
      }
    }
  }

  /** Calls that stay as they are deliver the same tickets. */
  lemma DeliveredStable(p: Pool, p': Pool, ds: seq<Delivery>)
    requires AllDeliverable(p, ds) && forall c | c in p.calls :: c in p'.calls && p'.calls[c] == p.calls[c]
    ensures AllDeliverable(p', ds) && Delivered(p', ds) == Delivered(p, ds)
  {
    forall i | 0 <= i < |ds| ensures Deliverable(p', ds[i]) && InputOf(p', ds[i]) == InputOf(p, ds[i]) {
      assert Deliverable(p, ds[i]);
    }
  }

  lemma DeliveredOneMore(p: Pool, ds: seq<Delivery>, d: Delivery)
    requires AllDeliverable(p, ds) && Deliverable(p, d)
    ensures AllDeliverable(p, ds + [d]) && Delivered(p, ds + [d]) == Delivered(p, ds) + [InputOf(p, d)]
  {
  }

  /** A conversation is the special case in which each call ends, and its ticket arrives, before
      the next call is made. */
  lemma {:induction false} SequentialIsConcurrent(me: Identity, turns: seq<Turn>)
    requires |turns| < TWO_64
    ensures var p, ds := ActAll(me, ActionsOf(turns)), DeliveriesOf(me, turns);
            AllDeliverable(p, ds) && Delivered(p, ds) == Inputs(me, 0, turns)
  {
    if turns != [] {
      var front, last := turns[..|turns| - 1], turns[|turns| - 1];
      var p, ds := ActAll(me, ActionsOf(front)), DeliveriesOf(me, front);
      SequentialIsConcurrent(me, front);
      SequentialPool(me, front);
      FetchedIs(0, front);
      match last
      case Rotation(newSeed) =>
        assert ActionsOf(front) + [] == ActionsOf(front);
        DeliveredOneMore(p, ds, Renewal(newSeed));
      case Sign(request, _, arrival) =>
        ActTwo(me, ActionsOf(front), Allocate(Calls(front)), Complete(Calls(front), request));
        var p' := ActAll(me, ActionsOf(turns));
        CallAlone(me, p, Calls(front), request);
        DeliveredStable(p, p', ds);
        if CanSign(me, Fetched(0, front), request) {
          DeliveredOneMore(p', ds, FromCall(Calls(front), arrival));
        } else {
          assert ds + [] == ds && Inputs(me, 0, front) + [] == Inputs(me, 0, front);
        }
    }
  }
}
