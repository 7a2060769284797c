/**
 The reward catalog and the per-subscription lookup of the rewards service.

 A customer's subscriptions are mapped channel by channel through the catalog
 (a channel the catalog does not list yields no rewards) and the per-channel
 lists are then flattened, one level deep and in subscription order, into the
 list of rewards the customer may redeem. Nothing is deduplicated.
 */
module Catalog {

  type Channel = string
  type Reward = string

  /** Channel name to the rewards a subscription to it unlocks. */
  type RewardCatalog = map<Channel, seq<Reward>>

  /** The rewards one channel unlocks; a channel the catalog does not list unlocks none. */
  function Lookup(catalog: RewardCatalog, channel: Channel): seq<Reward>
  {
    if channel in catalog then catalog[channel] else []
  }

  /** Concatenates a list of lists, one level deep, keeping the order. */
  function Flatten<T>(xss: seq<seq<T>>): seq<T>
  {
    if xss == [] then [] else xss[0] + Flatten(xss[1..])
  }

  /** Maps every subscribed channel to its catalog entry. */
  function LookupAll(catalog: RewardCatalog, channels: seq<Channel>): seq<seq<Reward>>
  {
    seq(|channels|, i requires 0 <= i < |channels| => Lookup(catalog, channels[i]))
  }

  /** The rewards a list of subscriptions unlocks: the flattened per-channel lookups. */
  function RewardsOf(catalog: RewardCatalog, channels: seq<Channel>): seq<Reward>
  {
    Flatten(LookupAll(catalog, channels))
  }

  /** Independent count of the rewards a list of subscriptions unlocks: the sum of
      the catalog entry lengths of the subscribed channels. */
  function RewardCount(catalog: RewardCatalog, channels: seq<Channel>): nat
  {
    if channels == [] then 0
    else (if channels[0] in catalog then |catalog[channels[0]]| else 0)
         + RewardCount(catalog, channels[1..])
  }

  /** The subscribed channels the catalog lists, in subscription order. */
  function Listed(catalog: RewardCatalog, channels: seq<Channel>): (r: seq<Channel>)
    ensures |r| <= |channels|
    ensures forall i :: 0 <= i < |r| ==> r[i] in catalog
    ensures forall c :: c in r <==> c in channels && c in catalog
  {
    if channels == [] then []
    else if channels[0] in catalog then [channels[0]] + Listed(catalog, channels[1..])
    else Listed(catalog, channels[1..])
  }

  /** Flattening distributes over concatenation of the outer list. */
  lemma {:induction false} FlattenAppend<T>(a: seq<seq<T>>, b: seq<seq<T>>)
    ensures Flatten(a + b) == Flatten(a) + Flatten(b)
  {
    if a == [] {
      assert a + b == b;
    } else {
      assert (a + b)[1..] == a[1..] + b;
      FlattenAppend(a[1..], b);
    }
  }

  /** Unfolds the lookup of a non-empty subscription list at its first channel. */
  lemma RewardsOfCons(catalog: RewardCatalog, channels: seq<Channel>)
    requires channels != []
    ensures RewardsOf(catalog, channels)
            == Lookup(catalog, channels[0]) + RewardsOf(catalog, channels[1..])
  {
    assert LookupAll(catalog, channels)[1..] == LookupAll(catalog, channels[1..]);
  }

  /** A single subscription unlocks exactly its own catalog entry, or nothing
      when the catalog does not list the channel. */
  lemma RewardsOfSingle(catalog: RewardCatalog, channel: Channel)
    ensures channel in catalog ==> RewardsOf(catalog, [channel]) == catalog[channel]
    ensures channel !in catalog ==> RewardsOf(catalog, [channel]) == []
  {
    RewardsOfCons(catalog, [channel]);
  }

  /** The lookup distributes over concatenation of subscription lists. */
  lemma RewardsOfAppend(catalog: RewardCatalog, s1: seq<Channel>, s2: seq<Channel>)
    ensures RewardsOf(catalog, s1 + s2) == RewardsOf(catalog, s1) + RewardsOf(catalog, s2)
  {
    assert LookupAll(catalog, s1 + s2) == LookupAll(catalog, s1) + LookupAll(catalog, s2);
    FlattenAppend(LookupAll(catalog, s1), LookupAll(catalog, s2));
  }

  /** Rewards follow subscription order: those of the channel at position i sit
      between the rewards of the channels before it and of the channels after it. */
  lemma RewardsOfSplit(catalog: RewardCatalog, channels: seq<Channel>, i: nat)
    requires i < |channels|
    ensures RewardsOf(catalog, channels)
            == RewardsOf(catalog, channels[..i]) + Lookup(catalog, channels[i])
               + RewardsOf(catalog, channels[i+1..])
  {
    assert channels == channels[..i] + channels[i..];
    RewardsOfAppend(catalog, channels[..i], channels[i..]);
    RewardsOfCons(catalog, channels[i..]);
    assert channels[i..][1..] == channels[i+1..];
  }

  /** The number of rewards is the sum of the catalog entry lengths of the
      subscribed channels, duplicates included. */
  lemma {:induction false} RewardsOfLength(catalog: RewardCatalog, channels: seq<Channel>)
    ensures |RewardsOf(catalog, channels)| == RewardCount(catalog, channels)
  {
    if channels != [] {
      RewardsOfCons(catalog, channels);
      RewardsOfLength(catalog, channels[1..]);
    }
  }

  /** A reward is unlocked exactly when some subscribed channel lists it. */
  lemma {:induction false} RewardsOfMember(catalog: RewardCatalog, channels: seq<Channel>, x: Reward)
    ensures x in RewardsOf(catalog, channels)
            <==> exists i :: 0 <= i < |channels| && channels[i] in catalog && x in catalog[channels[i]]
  {
    if channels != [] {
      RewardsOfCons(catalog, channels);
      RewardsOfMember(catalog, channels[1..], x);
      if x in RewardsOf(catalog, channels[1..]) {
        var j :| 0 <= j < |channels[1..]| && channels[1..][j] in catalog && x in catalog[channels[1..][j]];
        assert channels[j+1] == channels[1..][j];
      }
      if exists i :: 0 <= i < |channels| && channels[i] in catalog && x in catalog[channels[i]] {
        var i :| 0 <= i < |channels| && channels[i] in catalog && x in catalog[channels[i]];
        if i > 0 {
          assert channels[1..][i-1] == channels[i];
        }
      }
    }
  }

  /** The rewards are empty exactly when every subscribed channel is missing from
      the catalog or lists no reward. */
  lemma {:induction false} RewardsOfEmptyIff(catalog: RewardCatalog, channels: seq<Channel>)
    ensures RewardsOf(catalog, channels) == []
            <==> forall i :: 0 <= i < |channels| ==> channels[i] !in catalog || catalog[channels[i]] == []
  {
    if channels != [] {
      RewardsOfCons(catalog, channels);
      RewardsOfEmptyIff(catalog, channels[1..]);
      if forall i :: 0 <= i < |channels| ==> channels[i] !in catalog || catalog[channels[i]] == [] {
        forall j | 0 <= j < |channels[1..]|
          ensures channels[1..][j] !in catalog || catalog[channels[1..][j]] == []
        {
          assert channels[1..][j] == channels[j+1];
        }
      }
      if RewardsOf(catalog, channels) == [] {
        forall i | 0 <= i < |channels|
          ensures channels[i] !in catalog || catalog[channels[i]] == []
        {
          if i > 0 {
            assert channels[1..][i-1] == channels[i];
          }
        }
      }
    }
  }

  /** Subscriptions only to channels the catalog does not list unlock nothing. */
  lemma UnlistedChannelsUnlockNothing(catalog: RewardCatalog, channels: seq<Channel>)
    requires forall i :: 0 <= i < |channels| ==> channels[i] !in catalog
    ensures RewardsOf(catalog, channels) == []
  {
    RewardsOfEmptyIff(catalog, channels);
  }

  /** Dropping the channels the catalog does not list changes nothing. */
  lemma {:induction false} RewardsOfListed(catalog: RewardCatalog, channels: seq<Channel>)
    ensures RewardsOf(catalog, Listed(catalog, channels)) == RewardsOf(catalog, channels)
  {
    if channels != [] {
      RewardsOfCons(catalog, channels);
      RewardsOfListed(catalog, channels[1..]);
      if channels[0] in catalog {
        RewardsOfCons(catalog, Listed(catalog, channels));
        assert Listed(catalog, channels)[1..] == Listed(catalog, channels[1..]);
      }
    }
  }

  /** Builds the reward list one subscription at a time, as the map-then-flatten
      of the service does. */
  method CollectRewards(catalog: RewardCatalog, channels: seq<Channel>) returns (data: seq<Reward>)
    ensures data == RewardsOf(catalog, channels)
    ensures |data| == RewardCount(catalog, channels)
  {
    data := [];
    var i := 0;
    while i < |channels|
      invariant 0 <= i <= |channels|
      invariant data == RewardsOf(catalog, channels[..i])
    {
      var entry := Lookup(catalog, channels[i]);
      RewardsOfAppend(catalog, channels[..i], [channels[i]]);
      RewardsOfSingle(catalog, channels[i]);
      assert channels[..i+1] == channels[..i] + [channels[i]];
      data := data + entry;
      i := i + 1;
    }
    assert channels[..i] == channels;
    RewardsOfLength(catalog, channels);
  }
}
