/**
 * The pending-send-packet store: the set of (channel id, sequence) pairs of
 * outbound packets sent during the current quota window whose acknowledgement
 * or timeout has not been processed yet.
 *
 * Each pair is one entry of a prefixed key-value store. Its key is the channel
 * id in a fixed-width field, right-padded with NUL bytes, followed by the
 * sequence as 8 big-endian bytes; its value is the single byte 1. Channel ids
 * here are byte strings, as Go strings are.
 */
module PendingSend {
  import opened Types
  import opened Bytes
  import opened Seqs

  /** Width of the channel field of a key (`types.PendingSendPacketChannelLength`). */
  const PendingSendPacketChannelLength: nat := 16

  /** Width of the sequence field of a key. */
  const SequenceLength: nat := 8

  const KeyLength: nat := PendingSendPacketChannelLength + SequenceLength

  const Slash: byte := 47

  function Zeros(n: nat): (z: Bytes)
    ensures |z| == n && forall i :: 0 <= i < n ==> z[i] == 0
  {
    seq(n, _ => 0)
  }

  /** The channel field of a key: the id, cut to the field width or right-padded with NUL bytes. */
  function ChannelField(channelId: Bytes): (field: Bytes)
    ensures |field| == PendingSendPacketChannelLength
  {
    if |channelId| >= PendingSendPacketChannelLength then channelId[..PendingSendPacketChannelLength]
    else channelId + Zeros(PendingSendPacketChannelLength - |channelId|)
  }

  /** `strings.TrimRight(s, "\x00")`: drops the trailing NUL bytes. */
  function TrimNul(b: Bytes): (t: Bytes)
    ensures |t| <= |b| && b[..|t|] == t
    ensures t == [] || t[|t| - 1] != 0
    ensures forall i :: |t| <= i < |b| ==> b[i] == 0
  {
    if b != [] && b[|b| - 1] == 0 then TrimNul(b[..|b| - 1]) else b
  }

  /** Channel ids that the key layout can carry: they fit the field and do not end in NUL. */
  predicate FitsChannelField(channelId: Bytes)
  {
    |channelId| <= PendingSendPacketChannelLength && (channelId == [] || channelId[|channelId| - 1] != 0)
  }

  /** The store key of a pending packet (`types.GetPendingSendPacketKey`). */
  function PendingSendPacketKey(channelId: Bytes, sequence: uint64): (key: Bytes)
    ensures |key| == KeyLength
    ensures key[..PendingSendPacketChannelLength] == ChannelField(channelId)
  {
    ChannelField(channelId) + BigEndian(sequence, SequenceLength)
  }

  /** Re-padding a trimmed channel field gives back the field. */
  lemma PadTrimmedField(field: Bytes)
    requires |field| == PendingSendPacketChannelLength
    ensures ChannelField(TrimNul(field)) == field
  {
    var t := TrimNul(field);
    assert field == t + field[|t|..];
    assert field[|t|..] == Zeros(PendingSendPacketChannelLength - |t|);
  }

  /**
   * The channel id and sequence a key stands for: the channel field without
   * its padding, then the big-endian sequence. Every key of the layout's
   * length is the key of the pair it decodes to.
   */
  function DecodeKey(key: Bytes): (decoded: (Bytes, uint64))
    requires |key| >= KeyLength
    ensures FitsChannelField(decoded.0)
    ensures |key| == KeyLength ==> PendingSendPacketKey(decoded.0, decoded.1) == key
  {
    assert Pow256(SequenceLength) == 0x1_0000_0000_0000_0000;
    var field := key[..PendingSendPacketChannelLength];
    var sequence := key[PendingSendPacketChannelLength..KeyLength];
    PadTrimmedField(field);
    FromBigEndianRoundTrip(sequence);
    assert key[..KeyLength] == field + sequence;
    (TrimNul(field), FromBigEndian(sequence))
  }

  /** NUL padding is removed again by the trim. */
  lemma TrimPadding(channelId: Bytes, n: nat)
    requires channelId == [] || channelId[|channelId| - 1] != 0
    ensures TrimNul(channelId + Zeros(n)) == channelId
  {
    var b := channelId + Zeros(n);
    assert b[..|channelId|] == channelId;
  }

  /** Decoding a key gives back the pair it was made from. */
  lemma KeyRoundTrip(channelId: Bytes, sequence: uint64)
    requires FitsChannelField(channelId)
    ensures DecodeKey(PendingSendPacketKey(channelId, sequence)) == (channelId, sequence)
  {
    var key := PendingSendPacketKey(channelId, sequence);
    TrimPadding(channelId, PendingSendPacketChannelLength - |channelId|);
    assert key[PendingSendPacketChannelLength..KeyLength] == BigEndian(sequence, SequenceLength);
    assert Pow256(SequenceLength) == 0x1_0000_0000_0000_0000;
    BigEndianRoundTrip(sequence, SequenceLength);
  }

  /** Hence distinct pairs have distinct keys. */
  lemma KeyInjective(c1: Bytes, s1: uint64, c2: Bytes, s2: uint64)
    requires FitsChannelField(c1) && FitsChannelField(c2)
    requires PendingSendPacketKey(c1, s1) == PendingSendPacketKey(c2, s2)
    ensures c1 == c2 && s1 == s2
  {
    KeyRoundTrip(c1, s1);
    KeyRoundTrip(c2, s2);
  }

  /**
   * A key starts with the bytes of a channel id `prefix` exactly when
   * `prefix` is a prefix of the key's channel id: the padding NULs cannot
   * complete a prefix that does not end in NUL.
   */
  lemma KeyPrefixIsChannelPrefix(channelId: Bytes, sequence: uint64, prefix: Bytes)
    requires FitsChannelField(channelId) && FitsChannelField(prefix)
    ensures HasPrefix(PendingSendPacketKey(channelId, sequence), prefix) <==> HasPrefix(channelId, prefix)
  {
    var key := PendingSendPacketKey(channelId, sequence);
    var n := |prefix|;
    assert key[..|channelId|] == channelId;
    if n <= |channelId| {
      assert key[..n] == channelId[..n];
    } else {
      assert key[n - 1] == 0;
    }
  }

  // ---------------------------------------------------------------------
  // The listing format
  // ---------------------------------------------------------------------

  /**
   * `fmt.Sprintf("%s/%d", channelId, sequence)`: the id, then a slash, then
   * digits only, so the last slash of the entry ends the channel id.
   */
  function PacketId(channelId: Bytes, sequence: nat): (id: Bytes)
    ensures |id| > |channelId| + 1 && id[..|channelId|] == channelId && id[|channelId|] == Slash
    ensures forall i :: |channelId| < i < |id| ==> IsDigitByte(id[i])
    ensures ParseDecimal(id[|channelId| + 1..]) == sequence
  {
    DecimalRoundTrip(sequence);
    assert (channelId + [Slash] + Decimal(sequence))[|channelId| + 1..] == Decimal(sequence);
    channelId + [Slash] + Decimal(sequence)
  }

  /** The listing entry of a stored key. */
  function PacketIdOfKey(key: Bytes): Bytes
    requires |key| >= KeyLength
  {
    PacketId(DecodeKey(key).0, DecodeKey(key).1)
  }

  /** Entries of slash-free channel ids are distinct for distinct pairs. */
  lemma PacketIdInjective(c1: Bytes, s1: nat, c2: Bytes, s2: nat)
    requires Slash !in c1 && Slash !in c2
    requires PacketId(c1, s1) == PacketId(c2, s2)
    ensures c1 == c2 && s1 == s2
  {
    var id := PacketId(c1, s1);
    assert id[|c1|] == Slash && id[|c2|] == Slash;
    assert c1 == id[..|c1|] == c2;
    assert Decimal(s1) == id[|c1| + 1..] == Decimal(s2);
    DecimalRoundTrip(s1);
    DecimalRoundTrip(s2);
  }

  // ---------------------------------------------------------------------
  // The store as a map, and what its operations do to membership
  // ---------------------------------------------------------------------

  /**
   * A pair is pending when its key holds a non-empty value; for a channel id
   * the layout can carry, that is some stored key decoding to the pair.
   */
  predicate IsPending(store: map<Bytes, Bytes>, channelId: Bytes, sequence: uint64)
    ensures FitsChannelField(channelId) ==>
      (IsPending(store, channelId, sequence) <==>
         exists key :: key in store && |key| == KeyLength && |store[key]| != 0 && DecodeKey(key) == (channelId, sequence))
  {
    var key := PendingSendPacketKey(channelId, sequence);
    assert FitsChannelField(channelId) ==> DecodeKey(key) == (channelId, sequence) by {
      if FitsChannelField(channelId) { KeyRoundTrip(channelId, sequence); }
    }
    key in store && |store[key]| != 0
  }

  /** The store after deleting every key that starts with the bytes of `channelId`. */
  function ChannelCleared(store: map<Bytes, Bytes>, channelId: Bytes): (cleared: map<Bytes, Bytes>)
    ensures cleared.Keys <= store.Keys
    ensures forall k :: k in cleared ==> cleared[k] == store[k]
  {
    map k | k in store && !HasPrefix(k, channelId) :: store[k]
  }

  /** Marking a pair pending changes the membership of no other pair. */
  lemma SetLeavesOthers(store: map<Bytes, Bytes>, c: Bytes, s: uint64, c2: Bytes, s2: uint64)
    requires FitsChannelField(c) && FitsChannelField(c2)
    ensures IsPending(store[PendingSendPacketKey(c, s) := [1]], c2, s2) <==>
            (c2 == c && s2 == s) || IsPending(store, c2, s2)
  {
    if PendingSendPacketKey(c, s) == PendingSendPacketKey(c2, s2) {
      KeyInjective(c, s, c2, s2);
    }
  }

  /** Removing a pair removes that pair and keeps every other pair's membership. */
  lemma RemoveLeavesOthers(store: map<Bytes, Bytes>, c: Bytes, s: uint64, c2: Bytes, s2: uint64)
    requires FitsChannelField(c) && FitsChannelField(c2)
    ensures IsPending(store - {PendingSendPacketKey(c, s)}, c2, s2) <==>
            !(c2 == c && s2 == s) && IsPending(store, c2, s2)
  {
    if PendingSendPacketKey(c, s) == PendingSendPacketKey(c2, s2) {
      KeyInjective(c, s, c2, s2);
    }
  }

  /** Setting or removing the same pair twice is the same as doing it once. */
  lemma SetAndRemoveIdempotent(store: map<Bytes, Bytes>, c: Bytes, s: uint64)
    ensures var key := PendingSendPacketKey(c, s);
      store[key := [1]][key := [1]] == store[key := [1]] && (store - {key}) - {key} == store - {key}
  {
  }

  /**
   * Clearing a channel id drops exactly the pairs whose channel id starts
   * with it, and keeps every other pair.
   */
  lemma ClearedChannelMembership(store: map<Bytes, Bytes>, channelId: Bytes, c2: Bytes, s2: uint64)
    requires FitsChannelField(channelId) && FitsChannelField(c2)
    ensures IsPending(ChannelCleared(store, channelId), c2, s2) <==>
            IsPending(store, c2, s2) && !HasPrefix(c2, channelId)
  {
    KeyPrefixIsChannelPrefix(c2, s2, channelId);
  }

  /** The bytes of "channel-1", "channel-10", "channel-12" and "channel-2". */
  const Channel1: Bytes := [99, 104, 97, 110, 110, 101, 108, 45, 49]
  const Channel10: Bytes := Channel1 + [48]
  const Channel12: Bytes := Channel1 + [50]
  const Channel2: Bytes := [99, 104, 97, 110, 110, 101, 108, 45, 50]

  /**
   * The sweep works on raw prefixes: clearing channel-1 also clears
   * channel-10 and channel-12, and never channel-2.
   */
  lemma ClearingChannel1(store: map<Bytes, Bytes>, s: uint64)
    ensures !IsPending(ChannelCleared(store, Channel1), Channel1, s)
    ensures !IsPending(ChannelCleared(store, Channel1), Channel10, s)
    ensures !IsPending(ChannelCleared(store, Channel1), Channel12, s)
    ensures IsPending(ChannelCleared(store, Channel1), Channel2, s) <==> IsPending(store, Channel2, s)
  {
    ClearedChannelMembership(store, Channel1, Channel1, s);
    ClearedChannelMembership(store, Channel1, Channel10, s);
    ClearedChannelMembership(store, Channel1, Channel12, s);
    ClearedChannelMembership(store, Channel1, Channel2, s);
    assert Channel10[..|Channel1|] == Channel1;
    assert Channel12[..|Channel1|] == Channel1;
    assert Channel2[8] != Channel1[8];
  }

  /** The bytes of "channel-100000000" and "channel-100000001": 17 bytes each, one more than the field holds. */
  const Channel100000000: Bytes := Channel10 + [48, 48, 48, 48, 48, 48, 48]
  const Channel100000001: Bytes := Channel10 + [48, 48, 48, 48, 48, 48, 49]

  /**
   * Channel ids longer than the field are cut to it, so two such ids that
   * agree on their first 16 bytes share every key.
   */
  lemma LongChannelIdsShareKeys(s: uint64)
    ensures Channel100000000 != Channel100000001
    ensures PendingSendPacketKey(Channel100000000, s) == PendingSendPacketKey(Channel100000001, s)
  {
    assert Channel100000000[16] != Channel100000001[16];
    assert Channel100000000[..PendingSendPacketChannelLength] == Channel100000001[..PendingSendPacketChannelLength];
  }

  /**
   * The sweep of a 17-byte channel id compares its last byte with the high
   * byte of the sequence, which is 0 below 2^56: its own packets survive it.
   */
  lemma LongChannelIdSweepKeepsItsPackets(store: map<Bytes, Bytes>, s: uint64)
    requires s < Pow256(SequenceLength - 1)
    ensures IsPending(ChannelCleared(store, Channel100000001), Channel100000001, s) <==> IsPending(store, Channel100000001, s)
  {
    var key := PendingSendPacketKey(Channel100000001, s);
    BigEndianLeadingZero(s, SequenceLength);
    assert key[16] == BigEndian(s, SequenceLength)[0];
    assert !HasPrefix(key, Channel100000001) by {
      assert key[..17][16] == 0 != Channel100000001[16];
    }
  }

  function Elements(ks: seq<Bytes>): set<Bytes>
  {
    set k | k in ks
  }

  /** Deleting one more listed key extends the set of deleted keys by it. */
  lemma RemovalStep(store: map<Bytes, Bytes>, keys: seq<Bytes>, i: nat)
    requires i < |keys|
    ensures (store - Elements(keys[..i])) - {keys[i]} == store - Elements(keys[..i + 1])
  {
    assert keys[..i + 1] == keys[..i] + [keys[i]];
    assert Elements(keys[..i + 1]) == Elements(keys[..i]) + {keys[i]};
  }

  /** Deleting the keys the prefix iterator visits leaves the cleared store. */
  lemma DeletingPrefixedKeys(store: map<Bytes, Bytes>, channelId: Bytes, keys: seq<Bytes>)
    requires forall k :: k in keys <==> k in store && HasPrefix(k, channelId)
    ensures store - Elements(keys) == ChannelCleared(store, channelId)
  {
  }

  /** The listing entries of `keys`, one per key, in the same order. */
  function Listing(keys: seq<Bytes>): (listing: seq<Bytes>)
    requires forall j :: 0 <= j < |keys| ==> |keys[j]| >= KeyLength
    ensures |listing| == |keys|
  {
    if keys == [] then []
    else Listing(keys[..|keys| - 1]) + [PacketIdOfKey(keys[|keys| - 1])]
  }

  lemma {:induction false} ListingEntry(keys: seq<Bytes>, j: nat)
    requires forall j :: 0 <= j < |keys| ==> |keys[j]| >= KeyLength
    requires j < |keys|
    ensures Listing(keys)[j] == PacketIdOfKey(keys[j])
  {
    if j < |keys| - 1 {
      ListingEntry(keys[..|keys| - 1], j);
    }
  }

  /** Listing one more key appends the entry its decoded pair renders to. */
  lemma ListingStep(keys: seq<Bytes>, i: nat)
    requires forall j :: 0 <= j < |keys| ==> |keys[j]| >= KeyLength
    requires i < |keys|
    ensures Listing(keys[..i + 1]) == Listing(keys[..i]) + [PacketId(DecodeKey(keys[i]).0, DecodeKey(keys[i]).1)]
  {
    assert keys[..i + 1][..i] == keys[..i];
  }

  /** Every pending pair whose channel id fits the key layout has its entry in the listing. */
  lemma ListingShowsPending(store: map<Bytes, Bytes>)
    requires forall k :: k in store ==> |k| == KeyLength
    ensures forall c, s: uint64 :: FitsChannelField(c) && IsPending(store, c, s) ==> PacketId(c, s) in Listing(SortedKeys(store))
  {
    var keys := SortedKeys(store);
    SortedKeysMembers(store);
    forall c, s: uint64 | FitsChannelField(c) && IsPending(store, c, s)
      ensures PacketId(c, s) in Listing(keys)
    {
      assert PendingSendPacketKey(c, s) in store;
      KeyIsListed(keys, c, s);
    }
  }

  /** A listed key's pair has its entry in the listing. */
  lemma KeyIsListed(keys: seq<Bytes>, c: Bytes, s: uint64)
    requires forall j :: 0 <= j < |keys| ==> |keys[j]| >= KeyLength
    requires FitsChannelField(c) && PendingSendPacketKey(c, s) in keys
    ensures PacketId(c, s) in Listing(keys)
  {
    var j :| 0 <= j < |keys| && keys[j] == PendingSendPacketKey(c, s);
    KeyRoundTrip(c, s);
    ListingEntry(keys, j);
  }

  /** Within one channel, keys sort by sequence. */
  lemma KeysOfChannelFollowSequence(channelId: Bytes, s1: uint64, s2: uint64)
    requires s1 < s2
    ensures Less(PendingSendPacketKey(channelId, s1), PendingSendPacketKey(channelId, s2))
  {
    assert Pow256(SequenceLength) == 0x1_0000_0000_0000_0000;
    BigEndianOrder(s1, s2, SequenceLength);
    LessCommonPrefix(ChannelField(channelId), BigEndian(s1, SequenceLength), BigEndian(s2, SequenceLength));
  }

  /**
   * The iterator visits the pending packets of one channel in ascending
   * sequence order, so they are listed in that order.
   */
  lemma ListedInSequenceOrder(store: map<Bytes, Bytes>, channelId: Bytes, s1: uint64, s2: uint64)
    requires s1 < s2
    requires PendingSendPacketKey(channelId, s1) in store && PendingSendPacketKey(channelId, s2) in store
    ensures exists i, j ::
              && 0 <= i < j < |SortedKeys(store)|
              && SortedKeys(store)[i] == PendingSendPacketKey(channelId, s1)
              && SortedKeys(store)[j] == PendingSendPacketKey(channelId, s2)
  {
    var keys := SortedKeys(store);
    var k1 := PendingSendPacketKey(channelId, s1);
    var k2 := PendingSendPacketKey(channelId, s2);
    SortedKeysMembers(store);
    SortedAscending(store.Keys);
    KeysOfChannelFollowSequence(channelId, s1, s2);
    var i :| 0 <= i < |keys| && keys[i] == k1;
    var j :| 0 <= j < |keys| && keys[j] == k2;
    if j <= i {
      LessIrreflexive(k1);
      LessAsymmetric(k1, k2);
    }
    assert i < j;
  }

  /** The loop over the store's iterator: decodes each key and renders its entry. */
  method ListEntries(keys: seq<Bytes>) returns (pendingPackets: seq<Bytes>)
    requires forall j :: 0 <= j < |keys| ==> |keys[j]| >= KeyLength
    ensures pendingPackets == Listing(keys)
  {
    pendingPackets := [];
    var i := 0;
    while i < |keys|
      invariant 0 <= i <= |keys|
      invariant pendingPackets == Listing(keys[..i])
    {
      var key := keys[i];
      var (channelId, sequence) := DecodeKey(key);
      ListingStep(keys, i);
      pendingPackets := pendingPackets + [PacketId(channelId, sequence)];
      i := i + 1;
    }
    assert keys[..i] == keys;
  }

  // ---------------------------------------------------------------------
  // The keeper's operations on the store
  // ---------------------------------------------------------------------

  class PendingSendPackets {
    /** The entries under the pending-send-packet prefix. */
    var store: map<Bytes, Bytes>

    /** Every key was made by the key encoder, so it has the full key length. */
    ghost predicate Valid()
      reads this
    {
      forall k :: k in store ==> |k| == KeyLength
    }

    constructor ()
      ensures Valid() && store == map[]
    {
      store := map[];
    }

    /** Records that a packet was just sent. */
    method SetPendingSendPacket(channelId: Bytes, sequence: uint64)
      requires Valid()
      modifies this
      ensures Valid()
      ensures store == old(store)[PendingSendPacketKey(channelId, sequence) := [1]]
      ensures IsPending(store, channelId, sequence)
    {
      var key := PendingSendPacketKey(channelId, sequence);
      store := store[key := [1]];
    }

    /** Forgets a packet once its acknowledgement or timeout has been processed. */
    method RemovePendingSendPacket(channelId: Bytes, sequence: uint64)
      requires Valid()
      modifies this
      ensures Valid()
      ensures store == old(store) - {PendingSendPacketKey(channelId, sequence)}
      ensures !IsPending(store, channelId, sequence)
    {
      var key := PendingSendPacketKey(channelId, sequence);
      store := store - {key};
    }

    /** Whether the packet was sent during the current quota: a present, non-empty value. */
    method CheckPacketSentDuringCurrentQuota(channelId: Bytes, sequence: uint64) returns (found: bool)
      ensures found <==> IsPending(store, channelId, sequence)
      ensures found ==> PendingSendPacketKey(channelId, sequence) in store
    {
      var key := PendingSendPacketKey(channelId, sequence);
      var valueBz := if key in store then store[key] else [];
      found := |valueBz| != 0;
    }

    /**
     * One "channelId/sequence" entry per stored key, in ascending key order;
     * every pending pair whose channel id fits the key layout is listed.
     */
    method GetAllPendingSendPackets() returns (pendingPackets: seq<Bytes>)
      requires Valid()
      ensures pendingPackets == Listing(SortedKeys(store))
      ensures forall c, s: uint64 :: FitsChannelField(c) && IsPending(store, c, s) ==> PacketId(c, s) in pendingPackets
    {
      var keys := SortedKeys(store);
      pendingPackets := ListEntries(keys);
      ListingShowsPending(store);
    }

    /** The keys that start with the bytes of `prefix`, in ascending key order. */
    method PrefixIterator(prefix: Bytes) returns (keys: seq<Bytes>)
      ensures keys == Filter(SortedKeys(store), k => HasPrefix(k, prefix))
      ensures forall k :: k in keys <==> k in store && HasPrefix(k, prefix)
    {
      SortedKeysMembers(store);
      keys := Filter(SortedKeys(store), k => HasPrefix(k, prefix));
    }

    /** Deletes every entry whose key starts with the bytes of `channelId`, as the quota reset does. */
    method RemoveAllChannelPendingSendPackets(channelId: Bytes)
      requires Valid()
      modifies this
      ensures Valid()
      ensures store == ChannelCleared(old(store), channelId)
    {
      var keys := PrefixIterator(channelId);
      var i := 0;
      while i < |keys|
        invariant 0 <= i <= |keys|
        invariant store == old(store) - Elements(keys[..i])
      {
        RemovalStep(old(store), keys, i);
        store := store - {keys[i]};
        i := i + 1;
      }
      assert keys[..i] == keys;
      DeletingPrefixedKeys(old(store), channelId, keys);
    }
  }
}
