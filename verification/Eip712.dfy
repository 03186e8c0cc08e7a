/** EIP-712 digests as the contract, the client and the gatekeeper build them, over an
    abstract hash. Nothing here says the hash is injective on all strings, which no
    32-byte hash is: binding is stated for the strings that were actually hashed. */
module Eip712 {
  import opened Bytes
  import opened Abi

  /** The cryptographic primitives that the three programs call.
      - keccak: keccak256;
      - sigS: the s value of a signature that parses, None for one that does not;
      - recover: the address that a signature recovers to on a digest;
      - chainAccepts: the signatures that the contract's ECDSA library does not revert on. */
  datatype Oracle = Oracle(
    keccak: bytes -> Bytes32,
    sigS: bytes -> Option<u256>,
    recover: (Bytes32, bytes) -> Option<Address>,
    chainAccepts: bytes -> bool)

  /** No two strings of the set have the same hash. */
  ghost predicate CollisionFree(o: Oracle, strings: set<bytes>)
  {
    forall x, y | x in strings && y in strings && o.keccak(x) == o.keccak(y) :: x == y
  }

  // ------------------------------------------------------------------- type hashes

  function Ascii(s: string): (b: bytes)
    ensures |b| == |s|
  {
    seq(|s|, i requires 0 <= i < |s| => s[i] as int % 256)
  }

  /** The literal that the contract hashes; the daemons' macro derives the same string from
      the same field list. */
  const TICKET_TYPE :=
    "Ticket(bytes32 channelId,address provider,uint64 nonce,uint128 faceValue,uint32 winProbNumerator,uint32 winProbDenominator,uint64 expiry,bytes32 clientSeed,bytes32 providerCommitment)"

  const DOMAIN_TYPE := "EIP712Domain(string name,string version,uint256 chainId,address verifyingContract)"

  /** EIP-712 domain separator of name "SPMP_Protocol", version "1". */
  function DomainWords(o: Oracle, chainId: u256, verifyingContract: Address): (ws: seq<Bytes32>)
    ensures |ws| == 5
  {
    [ o.keccak(Ascii(DOMAIN_TYPE)), o.keccak(Ascii("SPMP_Protocol")), o.keccak(Ascii("1")),
      UintWord(chainId), AddressWord(verifyingContract) ]
  }

  function DomainSeparator(o: Oracle, chainId: u256, verifyingContract: Address): Bytes32 {
    o.keccak(Flatten(DomainWords(o, chainId, verifyingContract)))
  }

  // --------------------------------------------------------- the contract's construction

  /** abi.encode(TICKET_TYPEHASH, the nine fields). */
  function StructPreimage(o: Oracle, t: Ticket): bytes {
    Flatten([o.keccak(Ascii(TICKET_TYPE))] + Words(t))
  }

  function DigestPreimage(separator: Bytes32, structHash: Bytes32): bytes {
    [0x19, 0x01] + separator + structHash
  }

  /** The digest that claimTicket recovers the signer from. */
  function ChainDigest(o: Oracle, separator: Bytes32, t: Ticket): Bytes32 {
    o.keccak(DigestPreimage(separator, o.keccak(StructPreimage(o, t))))
  }

  // ------------------------------------------------------------ the daemons' construction

  /** encodeData: the field encodings, concatenated. */
  function EncodeData(t: Ticket): bytes {
    t.channelId + AddressWord(t.provider) + UintWord(t.nonce) + UintWord(t.faceValue)
    + UintWord(t.winProbNumerator) + UintWord(t.winProbDenominator) + UintWord(t.expiry)
    + t.clientSeed + t.providerCommitment
  }

  function HashStruct(o: Oracle, t: Ticket): Bytes32 {
    o.keccak(o.keccak(Ascii(TICKET_TYPE)) + EncodeData(t))
  }

  /** `eip712_signing_hash`: the digest that the client signs. */
  function SigningHash(o: Oracle, separator: Bytes32, t: Ticket): Bytes32 {
    o.keccak([0x19] + ([0x01] + (separator + HashStruct(o, t))))
  }

  // ------------------------------------------------------------------------- agreement

  lemma {:induction false} FlattenConcat(a: seq<Bytes32>, b: seq<Bytes32>)
    ensures Flatten(a + b) == Flatten(a) + Flatten(b)
  {
    if a == [] {
      assert a + b == b;
    } else {
      assert (a + b)[1..] == a[1..] + b;
      FlattenConcat(a[1..], b);
    }
  }

  /** Appending the field encodings one by one is the ABI encoding of the nine words. */
  lemma EncodeDataIsAbi(t: Ticket)
    ensures EncodeData(t) == AbiEncode(t)
  {
    var ws := Words(t);
    FlattenSnoc(ws, 0);
    FlattenSnoc(ws, 1);
    FlattenSnoc(ws, 2);
    FlattenSnoc(ws, 3);
    FlattenSnoc(ws, 4);
    FlattenSnoc(ws, 5);
    FlattenSnoc(ws, 6);
    FlattenSnoc(ws, 7);
    FlattenSnoc(ws, 8);
    assert ws[..9] == ws;
    assert [] + t.channelId == t.channelId;
  }

  lemma FlattenSnoc(ws: seq<Bytes32>, k: nat)
    requires k < |ws|
    ensures Flatten(ws[..0]) == []
    ensures Flatten(ws[..k + 1]) == Flatten(ws[..k]) + ws[k]
  {
    assert ws[..k + 1] == ws[..k] + [ws[k]];
    FlattenConcat(ws[..k], [ws[k]]);
    assert [ws[k]][1..] == [];
  }

  /** The client's signing hash is the digest that the contract recovers the signer from. */
  lemma DigestsAgree(o: Oracle, separator: Bytes32, t: Ticket)
    ensures SigningHash(o, separator, t) == ChainDigest(o, separator, t)
  {
    EncodeDataIsAbi(t);
    var typeHash := o.keccak(Ascii(TICKET_TYPE));
    assert ([typeHash] + Words(t))[1..] == Words(t);
    var structHash := HashStruct(o, t);
    assert [0x19] + ([0x01] + (separator + structHash)) == DigestPreimage(separator, structHash);
  }

  // --------------------------------------------------------------------------- binding

  /** The three strings that are hashed on the way to a digest. */
  ghost function Preimages(o: Oracle, chainId: u256, verifyingContract: Address, t: Ticket): set<bytes> {
    var separator := DomainSeparator(o, chainId, verifyingContract);
    { Flatten(DomainWords(o, chainId, verifyingContract)),
      StructPreimage(o, t),
      DigestPreimage(separator, o.keccak(StructPreimage(o, t))) }
  }

  /** Unless the hash collides on the strings involved, one digest stands for one ticket on
      one chain and one contract: all nine fields and the domain are bound. */
  lemma DigestBindsTicketAndDomain(o: Oracle, chainId: u256, c: Address, t: Ticket,
                                   chainId': u256, c': Address, t': Ticket)
    requires CollisionFree(o, Preimages(o, chainId, c, t) + Preimages(o, chainId', c', t'))
    ensures ChainDigest(o, DomainSeparator(o, chainId, c), t)
            == ChainDigest(o, DomainSeparator(o, chainId', c'), t')
            <==> chainId == chainId' && c == c' && t == t'
  {
    var separator, separator' := DomainSeparator(o, chainId, c), DomainSeparator(o, chainId', c');
    if ChainDigest(o, separator, t) == ChainDigest(o, separator', t') {
      DigestPreimageParts(separator, o.keccak(StructPreimage(o, t)), separator', o.keccak(StructPreimage(o, t')));
      var typeHash := o.keccak(Ascii(TICKET_TYPE));
      FlattenInjective([typeHash] + Words(t), [typeHash] + Words(t'));
      assert Words(t) == ([typeHash] + Words(t))[1..] == ([typeHash] + Words(t'))[1..] == Words(t');
      AbiEncodeInjective(t, t');
      var ws, ws' := DomainWords(o, chainId, c), DomainWords(o, chainId', c');
      FlattenInjective(ws, ws');
      assert ws[3] == ws'[3] && ws[4] == ws'[4];
      UintWordOf(chainId, ws[3], TWO_256);
      UintWordOf(chainId', ws[3], TWO_256);
      AddressWordOf(c, ws[4]);
      AddressWordOf(c', ws[4]);
    }
  }

  lemma DigestPreimageParts(a: Bytes32, b: Bytes32, c: Bytes32, d: Bytes32)
    ensures DigestPreimage(a, b) == DigestPreimage(c, d) ==> a == c && b == d
  {
    if DigestPreimage(a, b) == DigestPreimage(c, d) {
      ConcatInjective([0x19, 0x01] + a, b, [0x19, 0x01] + c, d);
      ConcatInjective([0x19, 0x01], a, [0x19, 0x01], c);
    }
  }

  lemma FlattenInjective(ws: seq<Bytes32>, ws': seq<Bytes32>)
    requires Flatten(ws) == Flatten(ws')
    ensures ws == ws'
  {
    ChunkFlatten(ws);
    ChunkFlatten(ws');
  }

  /** The string behind a digest: the two bytes 0x19 0x01, the domain, and the hash of a string
      that holds the hashed type and then the ticket's encoding. */
  lemma DigestLayout(o: Oracle, separator: Bytes32, t: Ticket)
    ensures var typed := StructPreimage(o, t);
            var s := DigestPreimage(separator, o.keccak(typed));
            && ChainDigest(o, separator, t) == o.keccak(s)
            && |s| == 66 && s[0] == 0x19 && s[1] == 0x01 && s[2..34] == separator && s[34..] == o.keccak(typed)
            && |typed| == 320 && typed[..32] == o.keccak(Ascii(TICKET_TYPE)) && typed[32..] == AbiEncode(t)
  {
    var head := [o.keccak(Ascii(TICKET_TYPE))];
    assert (head + Words(t))[1..] == Words(t);
    assert StructPreimage(o, t) == head[0] + AbiEncode(t);
  }

  /** The string behind a domain separator: the hashed type, name and version, then the chain and
      the contract as words. */
  lemma DomainLayout(o: Oracle, chainId: u256, verifyingContract: Address)
    ensures var s := Flatten(DomainWords(o, chainId, verifyingContract));
            && |s| == 160
            && WordAt(s, 0) == o.keccak(Ascii(DOMAIN_TYPE))
            && WordAt(s, 1) == o.keccak(Ascii("SPMP_Protocol")) && WordAt(s, 2) == o.keccak(Ascii("1"))
            && FromBE(WordAt(s, 3)) == chainId
            && WordAt(s, 4)[..12] == Zeros(12) && WordAt(s, 4)[12..] == verifyingContract
  {
    var ws := DomainWords(o, chainId, verifyingContract);
    forall i | 0 <= i < 5 ensures WordAt(Flatten(ws), i) == ws[i] {
      FlattenAt(ws, i);
    }
    UintWordReads(chainId);
  }
}
