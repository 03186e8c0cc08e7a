/** The Ticket struct shared by the contract and both daemons, and its ABI encoding:
    nine static 32-byte words, decoded strictly. */
module Abi {
  import opened Bytes

  datatype Ticket = Ticket(
    channelId: Bytes32,
    provider: Address,
    nonce: u64,
    faceValue: u128,
    winProbNumerator: u32,
    winProbDenominator: u32,
    expiry: u64,
    clientSeed: Bytes32,
    providerCommitment: Bytes32)

  const TICKET_WORDS := 9
  const TICKET_ABI_LEN := 288

  function UintWord(n: u256): Bytes32 {
    ToBE(n, 32)
  }

  function AddressWord(a: Address): Bytes32 {
    Zeros(12) + a
  }

  /** The head words of a ticket, in declaration order. */
  function Words(t: Ticket): (ws: seq<Bytes32>)
    ensures |ws| == TICKET_WORDS
  {
    [ t.channelId,
      AddressWord(t.provider),
      UintWord(t.nonce),
      UintWord(t.faceValue),
      UintWord(t.winProbNumerator),
      UintWord(t.winProbDenominator),
      UintWord(t.expiry),
      t.clientSeed,
      t.providerCommitment ]
  }

  function Flatten(ws: seq<Bytes32>): (s: bytes)
    ensures |s| == 32 * |ws|
  {
    if ws == [] then [] else ws[0] + Flatten(ws[1..])
  }

  function Chunk(s: bytes): (ws: seq<Bytes32>)
    requires |s| % 32 == 0
    ensures 32 * |ws| == |s|
  {
    if s == [] then [] else [s[..32]] + Chunk(s[32..])
  }

  lemma {:induction false} ChunkFlatten(ws: seq<Bytes32>)
    ensures Chunk(Flatten(ws)) == ws
  {
    if ws != [] {
      var s := Flatten(ws);
      assert s[..32] == ws[0] && s[32..] == Flatten(ws[1..]);
      ChunkFlatten(ws[1..]);
    }
  }

  lemma {:induction false} FlattenChunk(s: bytes)
    requires |s| % 32 == 0
    ensures Flatten(Chunk(s)) == s
  {
    if s != [] {
      FlattenChunk(s[32..]);
      assert Chunk(s)[1..] == Chunk(s[32..]);
    }
  }

  function AbiEncode(t: Ticket): (s: bytes)
    ensures |s| == TICKET_ABI_LEN
  {
    Flatten(Words(t))
  }

  /** A word read as an unsigned integer, refused when it has bits above its type. */
  function UintOf(w: Bytes32, bound: nat): (r: Option<nat>)
    ensures r.Some? ==> r.value < bound
  {
    if FromBE(w) < bound then Some(FromBE(w)) else None
  }

  function AddressOf(w: Bytes32): (r: Option<Address>) {
    if w[..12] == Zeros(12) then Some(w[12..]) else None
  }

  /** Reads nine words as a ticket; any non-zero padding is refused. */
  function TicketOf(ws: seq<Bytes32>): (r: Option<Ticket>)
    requires |ws| == TICKET_WORDS
  {
    var provider := AddressOf(ws[1]);
    var nonce := UintOf(ws[2], TWO_64);
    var faceValue := UintOf(ws[3], TWO_128);
    var numerator := UintOf(ws[4], TWO_32);
    var denominator := UintOf(ws[5], TWO_32);
    var expiry := UintOf(ws[6], TWO_64);
    if provider.None? || nonce.None? || faceValue.None? || numerator.None? || denominator.None? || expiry.None?
    then None
    else Some(Ticket(ws[0], provider.value, nonce.value, faceValue.value, numerator.value,
                     denominator.value, expiry.value, ws[7], ws[8]))
  }

  /** `Ticket::abi_decode(buf, true)`. */
  function AbiDecode(s: bytes): (r: Option<Ticket>)
  {
    if |s| != TICKET_ABI_LEN then None else TicketOf(Chunk(s))
  }

  lemma UintWordOf(n: u256, w: Bytes32, bound: nat)
    requires n < bound <= TWO_256
    ensures UintOf(w, bound) == Some(n) <==> w == UintWord(n)
  {
    PowerValues();
    FromToBE(n, 32);
    ToFromBE(w);
  }

  lemma AddressWordOf(a: Address, w: Bytes32)
    ensures AddressOf(w) == Some(a) <==> w == AddressWord(a)
  {
    assert AddressWord(a)[..12] == Zeros(12) && AddressWord(a)[12..] == a;
    assert w == w[..12] + w[12..];
  }

  lemma TicketOfWords(t: Ticket, ws: seq<Bytes32>)
    requires |ws| == TICKET_WORDS
    ensures TicketOf(ws) == Some(t) <==> ws == Words(t)
  {
    AddressWordOf(t.provider, ws[1]);
    UintWordOf(t.nonce, ws[2], TWO_64);
    UintWordOf(t.faceValue, ws[3], TWO_128);
    UintWordOf(t.winProbNumerator, ws[4], TWO_32);
    UintWordOf(t.winProbDenominator, ws[5], TWO_32);
    UintWordOf(t.expiry, ws[6], TWO_64);
  }

  /** The strict decoder accepts exactly the encodings, each as its own ticket. */
  lemma AbiDecodeIff(s: bytes, t: Ticket)
    ensures AbiDecode(s) == Some(t) <==> s == AbiEncode(t)
  {
    ChunkFlatten(Words(t));
    if |s| == TICKET_ABI_LEN {
      FlattenChunk(s);
      TicketOfWords(t, Chunk(s));
    }
  }

  lemma AbiEncodeInjective(t: Ticket, t': Ticket)
    requires AbiEncode(t) == AbiEncode(t')
    ensures t == t'
  {
    AbiDecodeIff(AbiEncode(t), t);
    AbiDecodeIff(AbiEncode(t), t');
  }

  lemma {:induction false} FlattenAt(ws: seq<Bytes32>, i: nat)
    requires i < |ws|
    ensures Flatten(ws)[32 * i..32 * (i + 1)] == ws[i]
  {
    var s := Flatten(ws);
    if i == 0 {
      assert s[..32] == ws[0];
    } else {
      FlattenAt(ws[1..], i - 1);
      assert s[32..] == Flatten(ws[1..]);
      assert s[32 * i..32 * (i + 1)] == s[32..][32 * (i - 1)..32 * i];
    }
  }

  /** The i-th word of an encoding. */
  function WordAt(s: bytes, i: nat): bytes
    requires 32 * (i + 1) <= |s|
  {
    s[32 * i..32 * (i + 1)]
  }

  /** Where each field of a ticket stands in its encoding, and as what number it reads. */
  lemma AbiLayout(t: Ticket)
    ensures var s := AbiEncode(t);
            && WordAt(s, 0) == t.channelId
            && WordAt(s, 1)[..12] == Zeros(12) && WordAt(s, 1)[12..] == t.provider
            && FromBE(WordAt(s, 2)) == t.nonce
            && FromBE(WordAt(s, 3)) == t.faceValue
            && FromBE(WordAt(s, 4)) == t.winProbNumerator
            && FromBE(WordAt(s, 5)) == t.winProbDenominator
            && FromBE(WordAt(s, 6)) == t.expiry
            && WordAt(s, 7) == t.clientSeed && WordAt(s, 8) == t.providerCommitment
  {
    var s, ws := AbiEncode(t), Words(t);
    forall i | 0 <= i < 9 ensures WordAt(s, i) == ws[i] {
      FlattenAt(ws, i);
    }
    UintWordReads(t.nonce);
    UintWordReads(t.faceValue);
    UintWordReads(t.winProbNumerator);
    UintWordReads(t.winProbDenominator);
    UintWordReads(t.expiry);
  }

  lemma UintWordReads(n: u256)
    ensures FromBE(UintWord(n)) == n
  {
    PowerValues();
    FromToBE(n, 32);
  }
}
