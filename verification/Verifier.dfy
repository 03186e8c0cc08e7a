/** The provider's gatekeeper: the verdict on one ticket, and the life of the secret seed
    that every ticket commits to. */
module Verifier {
  import opened Bytes
  import opened Abi
  import opened Eip712
  import opened Threshold

  const SECP256K1_N: u256 := 0xFFFFFFFFFFFFFFFFFFFFFFFFFFFFFFFEBAAEDCE6AF48A03BBFD25E8CD0364141
  const SECP256K1_HALF_ORDER: u256 := 0x7FFFFFFFFFFFFFFFFFFFFFFFFFFFFFFF5D576E735EBE07597DA786400E927ED0

  datatype TicketVerdict = ValidLosing | ValidWinning | InvalidSignature | InvalidCommitment | InvalidNonce | Expired

  datatype GatekeeperDecision = ServeLosing | ClaimAndRotateWinning | Reject(verdict: TicketVerdict)

  /** The part of the gatekeeper that changes. */
  datatype SeedState = SeedState(seed: Bytes32, commitment: Bytes32, invalidated: bool)

  // ------------------------------------------------------------------ one ticket

  /** A signature that the gatekeeper takes as the client's on this digest. */
  predicate SignedBy(o: Oracle, digest: Bytes32, signature: bytes, client: Address)
  {
    && o.sigS(signature).Some? && o.sigS(signature).value <= SECP256K1_HALF_ORDER
    && o.recover(digest, signature) == Some(client)
  }

  /** Of a signature and its mirror image at N - s, at least one is low enough. It is exactly one
      except in the band around N / 2 that the half-order, being too large, leaves open. */
  lemma LowSIsUniqueIff(o: Oracle, digest: Bytes32, signature: bytes, mirrored: bytes, client: Address, s: u256)
    requires 0 < s < SECP256K1_N && o.sigS(signature) == Some(s) && o.sigS(mirrored) == Some(SECP256K1_N - s)
    requires o.recover(digest, signature) == Some(client) && o.recover(digest, mirrored) == Some(client)
    ensures SECP256K1_HALF_ORDER > SECP256K1_N / 2
    ensures SignedBy(o, digest, signature, client) || SignedBy(o, digest, mirrored, client)
    ensures SignedBy(o, digest, signature, client) && SignedBy(o, digest, mirrored, client)
            <==> SECP256K1_N - SECP256K1_HALF_ORDER <= s <= SECP256K1_HALF_ORDER
  {
  }

  /** keccak256(digest || clientSeed || providerSeed), read as a number. */
  function CombinedHash(o: Oracle, digest: Bytes32, clientSeed: Bytes32, providerSeed: Bytes32): (n: u256)
  {
    PowerValues();
    ToFromBE(o.keccak(digest + clientSeed + providerSeed));
    FromBE(o.keccak(digest + clientSeed + providerSeed))
  }

  /** Everything but the nonce: bound to the held commitment, unexpired by a readable clock, and
      signed by the client. */
  predicate Bound(o: Oracle, separator: Bytes32, commitment: Bytes32, t: Ticket, signature: bytes,
                  client: Address, now: Option<u64>)
  {
    && t.providerCommitment == commitment
    && now.Some? && now.value < t.expiry
    && SignedBy(o, ChainDigest(o, separator, t), signature, client)
  }

  /** The draw is the number whose 32 bytes, most significant first, are the hash of digest,
      client seed and provider seed in that order. */
  lemma CombinedHashIff(o: Oracle, digest: Bytes32, clientSeed: Bytes32, providerSeed: Bytes32, h: u256)
    ensures CombinedHash(o, digest, clientSeed, providerSeed) == h
            <==> o.keccak(digest + clientSeed + providerSeed) == ToBE(h, 32)
  {
    PowerValues();
    FromToBE(h, 32);
    ToFromBE(o.keccak(digest + clientSeed + providerSeed));
  }

  /** Both parties' secrets and the ticket enter the draw: without a collision equal draws have
      equal digests and equal seeds. */
  lemma DrawBindsSecrets(o: Oracle, d: Bytes32, c: Bytes32, p: Bytes32, d': Bytes32, c': Bytes32, p': Bytes32)
    requires CollisionFree(o, {d + c + p, d' + c' + p'})
    ensures CombinedHash(o, d, c, p) == CombinedHash(o, d', c', p') <==> d == d' && c == c' && p == p'
  {
    CombinedHashIff(o, d, c, p, CombinedHash(o, d, c, p));
    CombinedHashIff(o, d', c', p', CombinedHash(o, d', c', p'));
    if CombinedHash(o, d, c, p) == CombinedHash(o, d', c', p') {
      ConcatInjective(d + c, p, d' + c', p');
      ConcatInjective(d, c, d', c');
    }
  }

  /** What a ticket must satisfy to be served at all: the next nonce and all the rest. */
  predicate Authentic(o: Oracle, separator: Bytes32, commitment: Bytes32, t: Ticket, signature: bytes,
                      client: Address, lastNonce: u64, now: Option<u64>)
  {
    t.nonce == lastNonce + 1 && Bound(o, separator, commitment, t, signature, client, now)
  }

  predicate Winning(o: Oracle, separator: Bytes32, seed: Bytes32, t: Ticket)
  {
    GateWins(t.winProbNumerator, t.winProbDenominator,
             CombinedHash(o, ChainDigest(o, separator, t), t.clientSeed, seed))
  }

  /** The verdict: the first failed check, or else the draw. */
  function Verdict(o: Oracle, separator: Bytes32, s: SeedState, t: Ticket, signature: bytes,
                   client: Address, lastNonce: u64, now: Option<u64>): (v: TicketVerdict)
    ensures v == ValidWinning || v == ValidLosing
            <==> Authentic(o, separator, s.commitment, t, signature, client, lastNonce, now)
    ensures v == ValidWinning ==> Winning(o, separator, s.seed, t)
    ensures v == ValidLosing ==> !Winning(o, separator, s.seed, t)
  {
    if t.nonce != lastNonce + 1 then InvalidNonce
    else if t.providerCommitment != s.commitment then InvalidCommitment
    else if now.None? || t.expiry <= now.value then Expired
    else if !SignedBy(o, ChainDigest(o, separator, t), signature, client) then InvalidSignature
    else if Winning(o, separator, s.seed, t) then ValidWinning
    else ValidLosing
  }

  /** What a rejection says of the ticket. */
  predicate Fails(o: Oracle, separator: Bytes32, s: SeedState, t: Ticket, signature: bytes, client: Address,
                  lastNonce: u64, now: Option<u64>, v: TicketVerdict)
  {
    match v
    case InvalidNonce => t.nonce <= lastNonce || t.nonce > lastNonce + 1
    case InvalidCommitment => t.providerCommitment != s.commitment
    case Expired => now == None || now.value >= t.expiry
    case InvalidSignature => !SignedBy(o, ChainDigest(o, separator, t), signature, client)
    case _ => false
  }

  /** The order of the checks. */
  const TICKET_CHECKS: seq<TicketVerdict> := [InvalidNonce, InvalidCommitment, Expired, InvalidSignature]

  /** A rejected ticket fails the check that the verdict names, and passes all checks before it. */
  lemma RejectionIsFirstFailure(o: Oracle, separator: Bytes32, s: SeedState, t: Ticket, signature: bytes,
                                client: Address, lastNonce: u64, now: Option<u64>, i: nat)
    requires i < |TICKET_CHECKS|
    ensures Verdict(o, separator, s, t, signature, client, lastNonce, now) == TICKET_CHECKS[i]
            <==> && Fails(o, separator, s, t, signature, client, lastNonce, now, TICKET_CHECKS[i])
                 && forall j | 0 <= j < i ::
                      !Fails(o, separator, s, t, signature, client, lastNonce, now, TICKET_CHECKS[j])
  {
    forall j | 0 <= j < i
      ensures TICKET_CHECKS[j] == InvalidNonce || TICKET_CHECKS[j] == InvalidCommitment || TICKET_CHECKS[j] == Expired
    {
    }
    assert TICKET_CHECKS[0] == InvalidNonce && TICKET_CHECKS[1] == InvalidCommitment && TICKET_CHECKS[2] == Expired;
  }

  /** The decision: everything is refused once the seed is spent. */
  function Decide(o: Oracle, separator: Bytes32, s: SeedState, t: Ticket, signature: bytes,
                  client: Address, lastNonce: u64, now: Option<u64>): GatekeeperDecision
  {
    if s.invalidated then Reject(InvalidCommitment)
    else
      match Verdict(o, separator, s, t, signature, client, lastNonce, now)
      case ValidLosing => ServeLosing
      case ValidWinning => ClaimAndRotateWinning
      case rejected => Reject(rejected)
  }

  /** A ticket gets past an unspent seed exactly when it is authentic, and fails on its nonce
      exactly when that is not the next one. */
  lemma DecideIff(o: Oracle, separator: Bytes32, s: SeedState, t: Ticket, signature: bytes,
                  client: Address, lastNonce: u64, now: Option<u64>)
    ensures var d := Decide(o, separator, s, t, signature, client, lastNonce, now);
            && (!d.Reject? <==> !s.invalidated && Authentic(o, separator, s.commitment, t, signature, client,
                                                            lastNonce, now))
            && (d == Reject(InvalidNonce) <==> !s.invalidated && t.nonce != lastNonce + 1)
            && (!d.Reject? ==> d == if Winning(o, separator, s.seed, t) then ClaimAndRotateWinning else ServeLosing)
  {
  }

  /** The precomputed separator and the struct hash give the digest of the contract. */
  lemma SigningHashIsDigest(o: Oracle, separator: Bytes32, t: Ticket)
    ensures o.keccak(DigestPreimage(separator, HashStruct(o, t))) == ChainDigest(o, separator, t)
  {
    DigestsAgree(o, separator, t);
    assert [0x19] + ([0x01] + (separator + HashStruct(o, t))) == DigestPreimage(separator, HashStruct(o, t));
  }

  // -------------------------------------------------------------------- the object

  class TicketVerifier {
    const oracle: Oracle
    const providerAddress: Address
    const contractAddress: Address
    const chainId: u64
    const domainSeparator: Bytes32

    var providerSeed: Bytes32
    var providerCommitment: Bytes32
    var seedInvalidated: bool

    ghost function State(): SeedState
      reads this
    {
      SeedState(providerSeed, providerCommitment, seedInvalidated)
    }

    constructor (oracle: Oracle, providerAddress: Address, contractAddress: Address, chainId: u64,
                 providerSeed: Bytes32)
      ensures this.oracle == oracle && this.providerAddress == providerAddress
      ensures this.contractAddress == contractAddress && this.chainId == chainId
      ensures domainSeparator == DomainSeparator(oracle, chainId, contractAddress)
      ensures State() == SeedState(providerSeed, oracle.keccak(providerSeed), false)
    {
      this.oracle := oracle;
      this.providerAddress := providerAddress;
      this.contractAddress := contractAddress;
      this.chainId := chainId;
      this.domainSeparator := DomainSeparator(oracle, chainId, contractAddress);
      this.providerSeed := providerSeed;
      this.providerCommitment := oracle.keccak(providerSeed);
      this.seedInvalidated := false;
    }

    method RotateSeed(newSeed: Bytes32)
      modifies this
      ensures State() == SeedState(newSeed, oracle.keccak(newSeed), false)
      ensures State() == Next(oracle, domainSeparator, old(State()), Rotate(newSeed))
    {
      providerSeed := newSeed;
      providerCommitment := oracle.keccak(newSeed);
      seedInvalidated := false;
    }

    method EvaluateAndGate(t: Ticket, signature: bytes, client: Address, lastNonce: u64, now: Option<u64>)
      returns (decision: GatekeeperDecision)
      modifies this`seedInvalidated
      ensures decision == Decide(oracle, domainSeparator, old(State()), t, signature, client, lastNonce, now)
      ensures State() == old(State()).(invalidated := old(seedInvalidated) || decision == ClaimAndRotateWinning)
      ensures State() == Next(oracle, domainSeparator, old(State()), Present(t, signature, client, lastNonce, now))
    {
      if seedInvalidated {
        return Reject(InvalidCommitment);
      }
      var verdict := VerifyTicket(t, signature, client, lastNonce, now);
      match verdict {
        case ValidLosing => decision := ServeLosing;
        case ValidWinning =>
          seedInvalidated := true;
          decision := ClaimAndRotateWinning;
        case rejected => decision := Reject(rejected);
      }
    }

    method VerifyTicket(t: Ticket, signature: bytes, client: Address, lastNonce: u64, now: Option<u64>)
      returns (verdict: TicketVerdict)
      ensures verdict == Verdict(oracle, domainSeparator, State(), t, signature, client, lastNonce, now)
    {
      // 1. watermark, with the wrap-around of a 64-bit increment
      if t.nonce != (lastNonce + 1) % TWO_64 || lastNonce == TWO_64 - 1 {
        return InvalidNonce;
      }
      // 2. commitment
      if t.providerCommitment != providerCommitment {
        return InvalidCommitment;
      }
      // 3. expiry; None is a clock before the epoch
      if now.None? || t.expiry <= now.value {
        return Expired;
      }
      // 4. digest over the cached domain separator
      var digest := BuildDigest(HashStruct(oracle, t));
      SigningHashIsDigest(oracle, domainSeparator, t);
      if oracle.sigS(signature).None? {
        return InvalidSignature;
      }
      if oracle.sigS(signature).value > SECP256K1_HALF_ORDER {
        return InvalidSignature;
      }
      if oracle.recover(digest, signature).None? {
        return InvalidSignature;
      }
      if oracle.recover(digest, signature).value != client {
        return InvalidSignature;
      }
      // 5. combined entropy against the clamped odds
      var combinedVal := CombineEntropy(digest, t.clientSeed);
      var target := ClampedTarget(t.winProbNumerator, t.winProbDenominator);
      if target == MAX || combinedVal < target {
        verdict := ValidWinning;
      } else {
        verdict := ValidLosing;
      }
    }

    /** Fills the 66-byte buffer 0x19 || 0x01 || separator || structHash and hashes it. */
    method BuildDigest(structHash: Bytes32) returns (digest: Bytes32)
      ensures digest == oracle.keccak(DigestPreimage(domainSeparator, structHash))
    {
      var buf := new byte[66](_ => 0);
      buf[0] := 0x19;
      buf[1] := 0x01;
      CopyFromSlice(buf, 2, domainSeparator);
      CopyFromSlice(buf, 34, structHash);
      assert buf[..] == DigestPreimage(domainSeparator, structHash);
      digest := oracle.keccak(buf[..]);
    }

    /** Fills the 96-byte buffer digest || clientSeed || providerSeed and hashes it. */
    method CombineEntropy(digest: Bytes32, clientSeed: Bytes32) returns (n: u256)
      ensures n == CombinedHash(oracle, digest, clientSeed, providerSeed)
    {
      var buf := new byte[96](_ => 0);
      CopyFromSlice(buf, 0, digest);
      CopyFromSlice(buf, 32, clientSeed);
      CopyFromSlice(buf, 64, providerSeed);
      assert buf[..] == digest + clientSeed + providerSeed;
      var combinedHash := oracle.keccak(buf[..]);
      PowerValues();
      ToFromBE(combinedHash);
      n := FromBE(combinedHash);
    }

    /** The clamped threshold, its product taken modulo 2^256. */
    method ClampedTarget(numerator: u32, denominator: u32) returns (target: u256)
      ensures target == GateTarget(numerator, denominator)
    {
      if denominator == 0 || numerator == 0 {
        target := 0;
      } else if numerator >= denominator {
        target := MAX;
      } else {
        target := ((MAX / denominator) * numerator) % TWO_256;
      }
    }
  }

  /** `buf[at..at + n].copy_from_slice(src)`. */
  method CopyFromSlice(buf: array<byte>, at: nat, src: bytes)
    requires at + |src| <= buf.Length
    modifies buf
    ensures buf[..] == old(buf[..at]) + src + old(buf[at + |src|..])
  {
    forall i | 0 <= i < |src| {
      buf[at + i] := src[i];
    }
  }

  // ------------------------------------------------------------ the life of the seed

  /** Calls on one gatekeeper, in any order and with any arguments. */
  datatype Event =
    | Present(t: Ticket, signature: bytes, client: Address, lastNonce: u64, now: Option<u64>)
    | Rotate(newSeed: Bytes32)

  function DecideEvent(o: Oracle, separator: Bytes32, s: SeedState, e: Event): GatekeeperDecision
    requires e.Present?
  {
    Decide(o, separator, s, e.t, e.signature, e.client, e.lastNonce, e.now)
  }

  function Next(o: Oracle, separator: Bytes32, s: SeedState, e: Event): SeedState
  {
    match e
    case Present(_, _, _, _, _) =>
      s.(invalidated := s.invalidated || DecideEvent(o, separator, s, e) == ClaimAndRotateWinning)
    case Rotate(newSeed) => SeedState(newSeed, o.keccak(newSeed), false)
  }

  /** The gatekeeper's state after a sequence of calls. */
  function After(o: Oracle, separator: Bytes32, s: SeedState, events: seq<Event>): SeedState
  {
    if events == [] then s
    else Next(o, separator, After(o, separator, s, events[..|events| - 1]), events[|events| - 1])
  }

  /** The decision on the i-th call. */
  function DecisionAt(o: Oracle, separator: Bytes32, s: SeedState, events: seq<Event>, i: nat): GatekeeperDecision
    requires i < |events| && events[i].Present?
  {
    DecideEvent(o, separator, After(o, separator, s, events[..i]), events[i])
  }

  ghost predicate Won(o: Oracle, separator: Bytes32, s: SeedState, events: seq<Event>, i: nat)
    requires i < |events|
  {
    events[i].Present? && DecisionAt(o, separator, s, events, i) == ClaimAndRotateWinning
  }

  lemma AfterStep(o: Oracle, separator: Bytes32, s: SeedState, events: seq<Event>, i: nat)
    requires i < |events|
    ensures After(o, separator, s, events[..i + 1])
            == Next(o, separator, After(o, separator, s, events[..i]), events[i])
  {
    assert events[..i + 1][..i] == events[..i];
  }

  /** What a call does to the state: a rotation starts over, a win spends the seed that its
      ticket is bound to, and nothing else changes anything. */
  lemma CallEffect(o: Oracle, separator: Bytes32, s: SeedState, events: seq<Event>, i: nat)
    requires i < |events|
    ensures var mid, e := After(o, separator, s, events[..i]), events[i];
            After(o, separator, s, events[..i + 1])
            == if e.Rotate? then SeedState(e.newSeed, o.keccak(e.newSeed), false)
               else mid.(invalidated := mid.invalidated || Won(o, separator, s, events, i))
    ensures Won(o, separator, s, events, i) ==>
              After(o, separator, s, events[..i]).commitment == events[i].t.providerCommitment
  {
    AfterStep(o, separator, s, events, i);
  }

  /** The advertised commitment is always the hash of the secret that is held. */
  lemma {:induction false} CommitmentMatchesSeed(o: Oracle, separator: Bytes32, s: SeedState, events: seq<Event>)
    requires s.commitment == o.keccak(s.seed)
    ensures After(o, separator, s, events).commitment == o.keccak(After(o, separator, s, events).seed)
  {
    if events != [] {
      CommitmentMatchesSeed(o, separator, s, events[..|events| - 1]);
    }
  }

  lemma StaysSpent(o: Oracle, separator: Bytes32, s: SeedState, events: seq<Event>, i: nat)
    requires i < |events| && events[i].Present? && After(o, separator, s, events[..i]).invalidated
    ensures After(o, separator, s, events[..i + 1]) == After(o, separator, s, events[..i])
  {
    CallEffect(o, separator, s, events, i);
  }

  /** A spent seed stays spent, and the same, until the next rotation. */
  lemma {:induction false} SpentUntilRotation(o: Oracle, separator: Bytes32, s: SeedState, events: seq<Event>, i: nat,
                                              j: nat)
    requires i < j <= |events| && Won(o, separator, s, events, i)
    requires forall k | i < k < j :: events[k].Present?
    ensures After(o, separator, s, events[..j])
            == After(o, separator, s, events[..i]).(invalidated := true)
    decreases j
  {
    if i < j - 1 {
      SpentUntilRotation(o, separator, s, events, i, j - 1);
      StaysSpent(o, separator, s, events, j - 1);
    } else {
      CallEffect(o, separator, s, events, i);
    }
  }

  /** Between two rotations there is at most one win, and nothing is served after it. */
  lemma OneWinPerSeed(o: Oracle, separator: Bytes32, s: SeedState, events: seq<Event>, i: nat, j: nat)
    requires i < j < |events| && Won(o, separator, s, events, i)
    requires forall k | i < k <= j :: events[k].Present?
    ensures DecisionAt(o, separator, s, events, j) == Reject(InvalidCommitment)
  {
    SpentUntilRotation(o, separator, s, events, i, j);
  }

  /** Call k rotated to a seed with commitment c, and up to call j nothing has rotated away
      from it or won on it. */
  ghost predicate OnOffer(o: Oracle, separator: Bytes32, s: SeedState, events: seq<Event>, k: nat, j: nat, c: Bytes32)
    requires j <= |events|
  {
    && k < j && events[k].Rotate? && o.keccak(events[k].newSeed) == c
    && forall m | k < m < j :: events[m].Present? && !Won(o, separator, s, events, m)
  }

  ghost predicate Reinstalled(o: Oracle, separator: Bytes32, s: SeedState, events: seq<Event>, i: nat, j: nat,
                              c: Bytes32)
    requires j <= |events|
  {
    exists k :: i < k && OnOffer(o, separator, s, events, k, j, c)
  }

  /** After a win the winner's commitment is open again exactly while a rotation back to it is
      in force. */
  lemma {:induction false} OpenAgainIff(o: Oracle, separator: Bytes32, s: SeedState, events: seq<Event>, i: nat, j: nat)
    requires i < j <= |events| && Won(o, separator, s, events, i)
    ensures var s', c := After(o, separator, s, events[..j]), events[i].t.providerCommitment;
            !s'.invalidated && s'.commitment == c <==> Reinstalled(o, separator, s, events, i, j, c)
    decreases j
  {
    if i < j - 1 {
      OpenAgainIff(o, separator, s, events, i, j - 1);
      OpenAgainStep(o, separator, s, events, i, j - 1, events[i].t.providerCommitment);
    } else {
      CallEffect(o, separator, s, events, i);
    }
  }

  lemma OpenAgainStep(o: Oracle, separator: Bytes32, s: SeedState, events: seq<Event>, i: nat, j: nat, c: Bytes32)
    requires i < j < |events|
    requires var mid := After(o, separator, s, events[..j]);
             !mid.invalidated && mid.commitment == c <==> Reinstalled(o, separator, s, events, i, j, c)
    ensures var next := After(o, separator, s, events[..j + 1]);
            !next.invalidated && next.commitment == c <==> Reinstalled(o, separator, s, events, i, j + 1, c)
  {
    CallEffect(o, separator, s, events, j);
    ReinstalledStep(o, separator, s, events, i, j, c);
  }

  /** One more call: a rotation decides anew, a win closes, and anything else changes nothing. */
  lemma ReinstalledStep(o: Oracle, separator: Bytes32, s: SeedState, events: seq<Event>, i: nat, j: nat, c: Bytes32)
    requires i < j < |events|
    ensures Reinstalled(o, separator, s, events, i, j + 1, c)
            <==> if events[j].Rotate? then o.keccak(events[j].newSeed) == c
                 else Reinstalled(o, separator, s, events, i, j, c) && !Won(o, separator, s, events, j)
  {
    if events[j].Rotate? && o.keccak(events[j].newSeed) == c {
      assert OnOffer(o, separator, s, events, j, j + 1, c);
    }
    forall k | i < k < j && events[j].Present? && !Won(o, separator, s, events, j)
      ensures OnOffer(o, separator, s, events, k, j + 1, c) <==> OnOffer(o, separator, s, events, k, j, c)
    {
    }
    if Reinstalled(o, separator, s, events, i, j + 1, c) {
      var k :| i < k && OnOffer(o, separator, s, events, k, j + 1, c);
      assert k < j ==> OnOffer(o, separator, s, events, k, j, c);
    }
  }

  /** When a ticket bound to a commitment that has already won is served again: exactly when it
      is authentic and the provider has rotated back to a seed with that commitment, without
      another rotation or win since. */
  lemma ServedAgainIff(o: Oracle, separator: Bytes32, s: SeedState, events: seq<Event>, i: nat, j: nat)
    requires i < j < |events| && Won(o, separator, s, events, i)
    requires events[j].Present? && events[j].t.providerCommitment == events[i].t.providerCommitment
    ensures var e := events[j];
            !DecisionAt(o, separator, s, events, j).Reject?
            <==> && Reinstalled(o, separator, s, events, i, j, e.t.providerCommitment)
                 && Authentic(o, separator, e.t.providerCommitment, e.t, e.signature, e.client, e.lastNonce, e.now)
  {
    OpenAgainIff(o, separator, s, events, i, j);
  }

  /** In particular a rotation back to it came in between. */
  lemma ServedAgainOnlyIfReinstalled(o: Oracle, separator: Bytes32, s: SeedState, events: seq<Event>, i: nat, j: nat)
    requires i < j < |events| && Won(o, separator, s, events, i)
    requires events[j].Present? && events[j].t.providerCommitment == events[i].t.providerCommitment
    requires !DecisionAt(o, separator, s, events, j).Reject?
    ensures exists k :: i < k < j && events[k].Rotate?
                        && o.keccak(events[k].newSeed) == events[i].t.providerCommitment
  {
    ServedAgainIff(o, separator, s, events, i, j);
  }

  /** The secrets held over a run, the initial one first. */
  function Secrets(s: SeedState, events: seq<Event>): (seeds: seq<Bytes32>)
  {
    if events == [] then [s.seed]
    else
      var last := events[|events| - 1];
      Secrets(s, events[..|events| - 1]) + if last.Rotate? then [last.newSeed] else []
  }

  ghost predicate Distinct<T>(xs: seq<T>)
  {
    forall a, b | 0 <= a < b < |xs| :: xs[a] != xs[b]
  }

  lemma {:induction false} SecretsGrow(s: SeedState, events: seq<Event>, k: nat)
    requires k <= |events|
    ensures Secrets(s, events[..k]) <= Secrets(s, events)
    decreases |events|
  {
    if k < |events| {
      var front := events[..|events| - 1];
      SecretsGrow(s, front, k);
      assert front[..k] == events[..k];
    } else {
      assert events[..k] == events;
    }
  }

  /** The held secret is the last one of the list. */
  lemma {:induction false} HeldIsLast(o: Oracle, separator: Bytes32, s: SeedState, events: seq<Event>)
    ensures |Secrets(s, events)| >= 1
    ensures After(o, separator, s, events).seed == Secrets(s, events)[|Secrets(s, events)| - 1]
  {
    if events != [] {
      HeldIsLast(o, separator, s, events[..|events| - 1]);
    }
  }

  /** With secrets that never repeat, and no collision among their hashes, no ticket bound to
      a seed that has won is ever served again. */
  lemma UsedSeedNeverServedAgain(o: Oracle, separator: Bytes32, s: SeedState, events: seq<Event>, i: nat, j: nat)
    requires s.commitment == o.keccak(s.seed)
    requires Distinct(Secrets(s, events))
    requires CollisionFree(o, set x | x in Secrets(s, events))
    requires i < j < |events| && Won(o, separator, s, events, i)
    requires events[j].Present?
    requires events[j].t.providerCommitment == o.keccak(After(o, separator, s, events[..i]).seed)
    ensures DecisionAt(o, separator, s, events, j).Reject?
  {
    CommitmentMatchesSeed(o, separator, s, events[..i]);
    if !DecisionAt(o, separator, s, events, j).Reject? {
      ServedAgainOnlyIfReinstalled(o, separator, s, events, i, j);
      var k :| i < k < j && events[k].Rotate? && o.keccak(events[k].newSeed) == events[i].t.providerCommitment;
      RotatedSecretIsNew(o, separator, s, events, i, k);
      assert false;
    }
  }

  /** A rotation after call i installs a secret that differs from the one held at call i. */
  lemma RotatedSecretIsNew(o: Oracle, separator: Bytes32, s: SeedState, events: seq<Event>, i: nat, k: nat)
    requires Distinct(Secrets(s, events))
    requires CollisionFree(o, set x | x in Secrets(s, events))
    requires i < k < |events| && events[k].Rotate?
    ensures o.keccak(events[k].newSeed) != o.keccak(After(o, separator, s, events[..i]).seed)
  {
    HeldIsLast(o, separator, s, events[..i]);
    SecretsAround(s, events, i, k);
    LaterSecretDiffers(Secrets(s, events), Secrets(s, events[..i]), Secrets(s, events[..k]), events[k].newSeed);
  }

  lemma SecretsAround(s: SeedState, events: seq<Event>, i: nat, k: nat)
    requires i < k < |events| && events[k].Rotate?
    ensures Secrets(s, events[..i]) <= Secrets(s, events[..k])
    ensures Secrets(s, events[..k]) + [events[k].newSeed] <= Secrets(s, events)
  {
    SecretsGrow(s, events, k + 1);
    SecretsGrow(s, events[..k], i);
    assert events[..k][..i] == events[..i] && events[..k + 1][..k] == events[..k];
  }

  lemma LaterSecretDiffers(all: seq<Bytes32>, early: seq<Bytes32>, middle: seq<Bytes32>, x: Bytes32)
    requires 1 <= |early| && early <= middle && middle + [x] <= all && Distinct(all)
    ensures x in all && early[|early| - 1] in all && x != early[|early| - 1]
  {
    assert x == (middle + [x])[|middle|] == all[|middle|];
    assert early[|early| - 1] == middle[|early| - 1] == (middle + [x])[|early| - 1] == all[|early| - 1];
  }
}
