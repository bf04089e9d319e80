/**
 The search for the factory MAC address whose session key fits the device, and the
 padding of the session cipher.
 */
module Encryption {
  import opened Prelude
  import opened Integers

  // ----- candidate addresses

  const MAC_SIZE: nat := 6

  /** Offsets of the factory address from the Bluetooth address, most likely first. */
  const BASE_MAC_OFFSETS: seq<int> := [-2, -1, 0, -3, 1, 2]

  predicate IsAddress(value: int) {
    0 <= value < Power256(MAC_SIZE)
  }

  /** The addresses near `address` in the order of `offsets`, without the hint. */
  function Guesses(address: nat, hint: Option<Bytes>, offsets: seq<int>): seq<Bytes> {
    if offsets == [] then []
    else Guesses(address, hint, offsets[..|offsets| - 1]) + Guess(address, hint, offsets[|offsets| - 1])
  }

  function Guess(address: nat, hint: Option<Bytes>, offset: int): seq<Bytes> {
    var value := address + offset;
    if IsAddress(value) && hint != Some(BigEndian(value, MAC_SIZE)) then [BigEndian(value, MAC_SIZE)] else []
  }

  function Candidates(address: nat, hint: Option<Bytes>): seq<Bytes> {
    (if hint.Some? then [hint.value] else []) + Guesses(address, hint, BASE_MAC_OFFSETS)
  }

  ghost predicate Distinct<T>(items: seq<T>) {
    forall i, j :: 0 <= i < j < |items| ==> items[i] != items[j]
  }

  /** `mac` is the address with this number. */
  ghost predicate Spells(value: int, mac: Bytes) {
    IsAddress(value) && mac == BigEndian(value, MAC_SIZE)
  }

  lemma {:induction false} GuessesMembers(address: nat, hint: Option<Bytes>, offsets: seq<int>, mac: Bytes)
    ensures mac in Guesses(address, hint, offsets) <==>
            hint != Some(mac) && exists offset :: offset in offsets && Spells(address + offset, mac)
  {
    if offsets == [] {
    } else {
      var last := offsets[|offsets| - 1];
      var front := offsets[..|offsets| - 1];
      GuessesMembers(address, hint, front, mac);
      assert mac in Guess(address, hint, last) <==> hint != Some(mac) && Spells(address + last, mac);
      if offset :| offset in front && Spells(address + offset, mac) {
        assert offset in offsets && Spells(address + offset, mac);
      }
      assert last in offsets;
      if offset :| offset in offsets && Spells(address + offset, mac) {
        assert offset in front || offset == last;
      }
    }
  }

  lemma {:induction false} GuessesDistinct(address: nat, hint: Option<Bytes>, offsets: seq<int>)
    requires Distinct(offsets)
    ensures Distinct(Guesses(address, hint, offsets))
  {
    if offsets == [] {
    } else {
      var last := |offsets| - 1;
      GuessesDistinct(address, hint, offsets[..last]);
      NotGuessedBefore(address, hint, offsets, last);
      var front, guess := Guesses(address, hint, offsets[..last]), Guess(address, hint, offsets[last]);
      assert Guesses(address, hint, offsets) == front + guess;
      assert guess != [] ==> Spells(address + offsets[last], guess[0]);
      assert forall i :: 0 <= i < |front| ==> front[i] in front;
    }
  }

  /** Only the hint can repeat: different offsets give different addresses. */
  lemma NotGuessedBefore(address: nat, hint: Option<Bytes>, offsets: seq<int>, i: nat)
    requires Distinct(offsets) && i < |offsets|
    ensures forall mac :: Spells(address + offsets[i], mac) ==> mac !in Guesses(address, hint, offsets[..i])
  {
    hide Guesses, BigEndian, Power256;
    forall mac | Spells(address + offsets[i], mac)
      ensures mac !in Guesses(address, hint, offsets[..i])
    {
      GuessesMembers(address, hint, offsets[..i], mac);
      forall offset | offset in offsets[..i]
        ensures !Spells(address + offset, mac)
      {
        if Spells(address + offset, mac) {
          BigEndianInjective(address + offset, address + offsets[i], MAC_SIZE);
        }
      }
    }
  }

  lemma CandidatesDistinct(address: nat, hint: Option<Bytes>, offsets: seq<int>)
    requires Distinct(offsets)
    ensures Distinct((if hint.Some? then [hint.value] else []) + Guesses(address, hint, offsets))
  {
    GuessesDistinct(address, hint, offsets);
    if hint.Some? {
      GuessesMembers(address, hint, offsets, hint.value);
    }
  }

  lemma GuessesComplete(address: nat, hint: Option<Bytes>, mac: Bytes)
    ensures mac in Guesses(address, hint, BASE_MAC_OFFSETS) <==>
            hint != Some(mac) && exists v :: address - 3 <= v <= address + 2 && Spells(v, mac)
  {
    hide Guesses, Spells;
    GuessesMembers(address, hint, BASE_MAC_OFFSETS, mac);
    if v :| address - 3 <= v <= address + 2 && Spells(v, mac) {
      var offset := BASE_MAC_OFFSETS[OffsetIndex(v - address)];
      assert offset in BASE_MAC_OFFSETS && Spells(address + offset, mac);
    }
    if offset :| offset in BASE_MAC_OFFSETS && Spells(address + offset, mac) {
      assert -3 <= offset <= 2;
    }
  }

  /**
   The search tries the hint first, no address twice, and as a set exactly the hint and
   every 48-bit address from three below the Bluetooth address to two above it.
   */
  lemma CandidatesComplete(address: nat, hint: Option<Bytes>, mac: Bytes)
    ensures Distinct(Candidates(address, hint))
    ensures hint.Some? ==> Candidates(address, hint)[0] == hint.value
    ensures mac in Candidates(address, hint) <==>
            hint == Some(mac) || exists v :: address - 3 <= v <= address + 2 && Spells(v, mac)
  {
    hide Guesses, Spells, Distinct;
    assert Distinct(BASE_MAC_OFFSETS) by { OffsetsDistinct(); }
    CandidatesDistinct(address, hint, BASE_MAC_OFFSETS);
    GuessesComplete(address, hint, mac);
  }

  lemma OffsetsDistinct()
    ensures Distinct(BASE_MAC_OFFSETS)
  {
  }

  /** An address is written as its six bytes, the most significant first, and has no other number. */
  lemma SpellsIff(value: int, mac: Bytes)
    ensures Spells(value, mac) <==>
            && |mac| == 6
            && value == 0x100_0000_0000 * mac[0] as int + 0x1_0000_0000 * mac[1] as int + 0x100_0000 * mac[2] as int
                        + 0x1_0000 * mac[3] as int + 0x100 * mac[4] as int + mac[5] as int
  {
    AddressLimit();
    if |mac| == 6 {
      SixBytesBig(mac);
      FromBigEndianRoundTrip(mac);
    }
    if IsAddress(value) {
      BigEndianRoundTrip(value, 6);
    }
  }

  lemma AddressLimit()
    ensures Power256(6) == 0x1_0000_0000_0000
  {
    assert Power256(0) == 1 && Power256(1) == 256 && Power256(2) == 65536;
    assert Power256(3) == 16777216 && Power256(4) == 0x1_0000_0000 && Power256(5) == 0x100_0000_0000;
  }

  lemma FirstGuess(address: nat, hint: Option<Bytes>)
    ensures Guesses(address, hint, BASE_MAC_OFFSETS[..1]) == Guess(address, hint, -2)
  {
    GuessesNext(address, hint, BASE_MAC_OFFSETS, 0);
    GuessesNone(address, hint);
    assert BASE_MAC_OFFSETS[..0] == [];
  }

  /** After the hint the addresses come in the order in which they are likely: 2 and 1 below first. */
  lemma CandidatesInOrder(address: nat, hint: Option<Bytes>)
    ensures Candidates(address, hint)
            == (if hint.Some? then [hint.value] else [])
               + (Guess(address, hint, -2) + Guess(address, hint, -1) + Guess(address, hint, 0)
                  + Guess(address, hint, -3) + Guess(address, hint, 1) + Guess(address, hint, 2))
  {
    var offsets := BASE_MAC_OFFSETS;
    FirstGuess(address, hint);
    hide Guesses, Guess;
    forall k | 1 <= k <= 5
      ensures Guesses(address, hint, offsets[..k + 1])
              == Guesses(address, hint, offsets[..k]) + Guess(address, hint, offsets[k])
    {
      GuessesNext(address, hint, offsets, k);
    }
    assert Guesses(address, hint, offsets[..1 + 1]) == Guess(address, hint, -2) + Guess(address, hint, -1);
    assert Guesses(address, hint, offsets[..2 + 1])
           == Guess(address, hint, -2) + Guess(address, hint, -1) + Guess(address, hint, 0);
    assert Guesses(address, hint, offsets[..5 + 1])
           == Guesses(address, hint, offsets[..2 + 1])
              + Guess(address, hint, -3) + Guess(address, hint, 1) + Guess(address, hint, 2) by {
      assert Guesses(address, hint, offsets[..3 + 1])
             == Guesses(address, hint, offsets[..2 + 1]) + Guess(address, hint, -3);
      assert Guesses(address, hint, offsets[..4 + 1])
             == Guesses(address, hint, offsets[..3 + 1]) + Guess(address, hint, 1);
    }
    assert offsets[..5 + 1] == offsets;
  }

  function OffsetIndex(offset: int): (i: nat)
    requires -3 <= offset <= 2
    ensures i < |BASE_MAC_OFFSETS| && BASE_MAC_OFFSETS[i] == offset
  {
    if offset == -3 then 3 else if offset < 1 then offset + 2 else offset + 3
  }

  /** The generator: skips addresses out of range and those already seen. */
  method CandidateBaseMacs(address: nat, hint: Option<Bytes>) returns (macs: seq<Bytes>)
    ensures macs == Candidates(address, hint)
  {
    var seen: set<Bytes> := {};
    macs := [];
    if hint.Some? {
      seen := seen + {hint.value};
      macs := macs + [hint.value];
    }
    macs := AppendGuesses(address, hint, BASE_MAC_OFFSETS, seen, macs);
  }

  lemma GuessesNone(address: nat, hint: Option<Bytes>)
    ensures Guesses(address, hint, []) == []
  {
  }

  lemma GuessesNext(address: nat, hint: Option<Bytes>, offsets: seq<int>, i: nat)
    requires i < |offsets|
    ensures Guesses(address, hint, offsets[..i + 1]) ==
        Guesses(address, hint, offsets[..i]) + Guess(address, hint, offsets[i])
  {
    assert offsets[..i + 1][..i] == offsets[..i];
  }

  method AppendGuesses(address: nat, hint: Option<Bytes>, offsets: seq<int>, alreadySeen: set<Bytes>, first: seq<Bytes>)
      returns (macs: seq<Bytes>)
    requires Distinct(offsets)
    requires first == if hint.Some? then [hint.value] else []
    requires alreadySeen == set mac | mac in first
    ensures macs == first + Guesses(address, hint, offsets)
  {
    GuessesNone(address, hint);
    hide Guesses, BigEndian, Power256;
    var seen := alreadySeen;
    macs := first;
    for i := 0 to |offsets|
      invariant macs == first + Guesses(address, hint, offsets[..i])
      invariant forall mac :: mac in seen <==> mac in macs
    {
      GuessesNext(address, hint, offsets, i);
      NotGuessedBefore(address, hint, offsets, i);
      var value := address + offsets[i];
      if IsAddress(value) {
        var candidate := BigEndian(value, MAC_SIZE);
        assert Spells(value, candidate);
        if candidate !in seen {
          seen := seen + {candidate};
          macs := macs + [candidate];
        }
      }
    }
    assert offsets[..|offsets|] == offsets;
  }

  // ----- the session cipher

  const BLOCK_SIZE: nat := 16

  predicate IsAligned(data: Bytes) {
    data != [] && |data| % BLOCK_SIZE == 0
  }

  /** AES-128-CBC under one key, as far as the protocol relies on it. */
  datatype BlockCipher = BlockCipher(encrypt: Bytes -> Bytes, decrypt: Bytes -> Bytes)

  /** A length-preserving bijection of the block-aligned byte strings. */
  ghost predicate IsBijective(cipher: BlockCipher) {
    && (forall data {:trigger cipher.encrypt(data)} :: |data| % BLOCK_SIZE == 0 ==>
          |cipher.encrypt(data)| == |data| && cipher.decrypt(cipher.encrypt(data)) == data)
    && (forall data {:trigger cipher.decrypt(data)} :: |data| % BLOCK_SIZE == 0 ==>
          |cipher.decrypt(data)| == |data| && cipher.encrypt(cipher.decrypt(data)) == data)
  }

  function Padded(plaintext: Bytes): (r: Bytes)
    ensures |r| % BLOCK_SIZE == 0 && |plaintext| <= |r| < |plaintext| + BLOCK_SIZE
    ensures plaintext <= r && forall i :: |plaintext| <= i < |r| ==> r[i] == 0
  {
    var remainder := |plaintext| % BLOCK_SIZE;
    if remainder == 0 then plaintext else plaintext + Zeros(BLOCK_SIZE - remainder)
  }

  function Encrypt(cipher: BlockCipher, plaintext: Bytes): Bytes {
    cipher.encrypt(Padded(plaintext))
  }

  /** `None` is a `PacketParseError`. */
  function Decrypt(cipher: BlockCipher, ciphertext: Bytes): Option<Bytes> {
    if IsAligned(ciphertext) then Some(cipher.decrypt(ciphertext)) else None
  }

  /** What was encrypted comes back with the zeros that fill its last block. */
  lemma DecryptEncrypt(cipher: BlockCipher, plaintext: Bytes)
    requires IsBijective(cipher) && plaintext != []
    ensures Decrypt(cipher, Encrypt(cipher, plaintext)) == Some(Padded(plaintext))
  {
  }

  // ----- finding the session key

  const FRAME_MAGIC: byte := 0x51

  predicate IsValidInfoFrame(plaintext: Bytes)
    requires |plaintext| >= BLOCK_SIZE
  {
    plaintext[0] == FRAME_MAGIC && plaintext[|plaintext| - 4..] == [0, 0, 0, 0]
  }

  /** The cipher of the key derived from an address; the digest behind it stays abstract. */
  type KeySchedule = Bytes -> BlockCipher

  ghost predicate Opens(ciphers: KeySchedule, mac: Bytes, sample: Bytes) {
    && IsAligned(sample)
    && IsBijective(ciphers(mac))
    && IsValidInfoFrame(ciphers(mac).decrypt(sample))
  }

  /** `adopted` is the first of `macs` that opens the sample, `None` exactly if none does. */
  ghost predicate IsFirstFitting(ciphers: KeySchedule, macs: seq<Bytes>, sample: Bytes, adopted: Option<Bytes>) {
    && (adopted.None? <==> forall i :: 0 <= i < |macs| ==> !Opens(ciphers, macs[i], sample))
    && (adopted.Some? ==>
          exists i :: 0 <= i < |macs| && macs[i] == adopted.value && Opens(ciphers, macs[i], sample)
                   && forall j :: 0 <= j < i ==> !Opens(ciphers, macs[j], sample))
  }

  /**
   Tries the candidates in order on the encrypted info block and adopts the first whose
   plaintext is valid. `None` is a `SessionKeyError`, raised exactly when no candidate
   opens the block, or when the block is not one the cipher can decrypt.
   */
  method FindSessionKey(ciphers: KeySchedule, address: nat, hint: Option<Bytes>, sample: Bytes)
      returns (adopted: Option<Bytes>, fromName: bool)
    requires forall mac :: IsBijective(ciphers(mac))
    ensures IsFirstFitting(ciphers, Candidates(address, hint), sample, adopted)
    ensures fromName <==> adopted.Some? && adopted == hint
  {
    hide Candidates;
    var macs := CandidateBaseMacs(address, hint);
    adopted, fromName := None, false;
    for i := 0 to |macs|
      invariant adopted.None? && !fromName
      invariant forall j :: 0 <= j < i ==> !Opens(ciphers, macs[j], sample)
    {
      match Decrypt(ciphers(macs[i]), sample)
      case None => return;
      case Some(plaintext) =>
        if IsValidInfoFrame(plaintext) {
          assert Opens(ciphers, macs[i], sample);
          return Some(macs[i]), Some(macs[i]) == hint;
        }
    }
  }

  // ----- which key is found

  /** What the info block of the device shows under the right key: the magic first, and zeros at the end. */
  ghost predicate ShowsMarks(ciphers: KeySchedule, mac: Bytes, sample: Bytes) {
    && |sample| >= 16 && |sample| % 16 == 0
    && var d := ciphers(mac).decrypt(sample);
       && |d| == |sample| && d[0] == 0x51
       && d[|d| - 1] == 0 && d[|d| - 2] == 0 && d[|d| - 3] == 0 && d[|d| - 4] == 0
  }

  lemma OpensIff(ciphers: KeySchedule, mac: Bytes, sample: Bytes)
    requires IsBijective(ciphers(mac))
    ensures Opens(ciphers, mac, sample) <==> ShowsMarks(ciphers, mac, sample)
  {
    if IsAligned(sample) {
      var d := ciphers(mac).decrypt(sample);
      assert |d| == |sample|;
      var tail := d[|d| - 4..];
      assert tail == [d[|d| - 4], d[|d| - 3], d[|d| - 2], d[|d| - 1]];
    }
  }

  /**
   The search adopts the first candidate under which the block shows both marks, and none
   exactly if it shows them under no candidate.
   */
  lemma FirstFittingIff(ciphers: KeySchedule, macs: seq<Bytes>, sample: Bytes, adopted: Option<Bytes>)
    requires forall mac :: IsBijective(ciphers(mac))
    ensures IsFirstFitting(ciphers, macs, sample, adopted) <==>
            if adopted.None? then forall i :: 0 <= i < |macs| ==> !ShowsMarks(ciphers, macs[i], sample)
            else exists i :: 0 <= i < |macs| && macs[i] == adopted.value && ShowsMarks(ciphers, macs[i], sample)
                             && forall j :: 0 <= j < i ==> !ShowsMarks(ciphers, macs[j], sample)
  {
    hide ShowsMarks, Opens, IsBijective;
    forall mac
      ensures Opens(ciphers, mac, sample) <==> ShowsMarks(ciphers, mac, sample)
    {
      OpensIff(ciphers, mac, sample);
    }
  }

  lemma GenuineShowsMarks(ciphers: KeySchedule, mac: Bytes, info: Bytes)
    requires IsBijective(ciphers(mac)) && |info| <= 11
    ensures ShowsMarks(ciphers, mac, Encrypt(ciphers(mac), [0x51] + info))
  {
    var plaintext := [0x51] + info;
    DecryptEncrypt(ciphers(mac), plaintext);
    assert |Padded(plaintext)| == 16 && Padded(plaintext)[0] == plaintext[0];
  }

  /**
   A genuine info block, sent by the device with the factory address `mac`, is recognised: this
   address is adopted, unless the block happens to show both marks under an earlier candidate.
   */
  lemma GenuineIsAdopted(
    ciphers: KeySchedule, address: nat, hint: Option<Bytes>, info: Bytes, i: nat, adopted: Option<Bytes>)
    requires forall mac :: IsBijective(ciphers(mac))
    requires |info| <= 11 && i < |Candidates(address, hint)|
    requires var macs := Candidates(address, hint);
             var sample := Encrypt(ciphers(macs[i]), [0x51] + info);
             && IsFirstFitting(ciphers, macs, sample, adopted)
             && forall j :: 0 <= j < i ==> !ShowsMarks(ciphers, macs[j], sample)
    ensures adopted == Some(Candidates(address, hint)[i])
  {
    hide Candidates, ShowsMarks, IsFirstFitting, IsBijective;
    var macs := Candidates(address, hint);
    var sample := Encrypt(ciphers(macs[i]), [0x51] + info);
    GenuineShowsMarks(ciphers, macs[i], info);
    FirstFittingIff(ciphers, macs, sample, adopted);
  }
}
