/**
 The rewards service: decides which rewards a customer may redeem.

 The service asks an injected eligibility checker about the account number
 once. A status other than the eligible sentinel gives no rewards; the eligible
 status gives the catalog rewards of every subscribed channel, flattened in
 subscription order. Anything thrown on the way is caught: an error whose
 message is the invalid-account sentinel gives no rewards and raises the
 `invalidAccountNumber` flag, every other error gives no rewards and no flag.
 */
module Redeem {
  import opened Catalog

  /** What the checker (or the service itself) can throw. `NoMessage` is a
      thrown value whose `message` property is undefined, such as a bare string;
      `Nullish` is a thrown `null` or `undefined`, whose `message` cannot be read. */
  datatype Thrown = ErrorObject(message: string) | NoMessage | Nullish

  /** One call of the eligibility checker: a status, or a thrown value. */
  datatype Eligibility = Returns(status: string) | Throws(thrown: Thrown)

  /** The portfolio's subscriptions: a list of channels, or a value that cannot be
      mapped over (not an array, or a missing portfolio), for which the engine
      raises a TypeError carrying the given message. */
  datatype Subscriptions = Channels(channels: seq<Channel>) | Unmappable(typeError: string)

  /** The constants the service consults: the catalog and the two sentinels. */
  datatype Config = Config(catalog: RewardCatalog, eligible: string, invalidAccountNumber: string)

  /** The record the service returns. */
  datatype Rewards = Rewards(data: seq<Reward>, invalidAccountNumber: bool)

  /** The service either returns a record or lets an error escape: reading the
      `message` of a thrown `null` or `undefined` fails inside the catch block. */
  datatype Outcome = Returned(rewards: Rewards) | Escapes

  const NoRewards := Rewards([], false)

  /** The catch block: classifies a caught value by its message. */
  function Catch(cfg: Config, thrown: Thrown): (r: Outcome)
    ensures r.Escapes? <==> thrown.Nullish?
    ensures r.Returned? ==> r.rewards.data == []
    ensures r.Returned? && r.rewards.invalidAccountNumber
            <==> thrown == ErrorObject(cfg.invalidAccountNumber)
  {
    match thrown
    case ErrorObject(message) =>
      if message == cfg.invalidAccountNumber then Returned(Rewards([], true))
      else Returned(NoRewards)
    case NoMessage => Returned(NoRewards)
    case Nullish => Escapes
  }

  /** True when the service raises the invalid-account flag: the checker threw the
      invalid-account error, or the customer is eligible and mapping the
      subscriptions threw a TypeError whose message happens to be that sentinel. */
  predicate FlagRaised<A>(cfg: Config, account: A, portfolio: Subscriptions, checker: A -> Eligibility)
  {
    || checker(account) == Throws(ErrorObject(cfg.invalidAccountNumber))
    || (checker(account) == Returns(cfg.eligible)
        && portfolio == Unmappable(cfg.invalidAccountNumber))
  }

  /** The rewards service as one expression. */
  function Resolve<A>(cfg: Config, account: A, portfolio: Subscriptions, checker: A -> Eligibility): (r: Outcome)
    ensures r.Escapes? <==> checker(account) == Throws(Nullish)
    ensures r.Returned? && r.rewards.invalidAccountNumber ==> r.rewards.data == []
    ensures r.Returned? && r.rewards.invalidAccountNumber <==> FlagRaised(cfg, account, portfolio, checker)
    ensures r.Returned? && r.rewards.data != []
            ==> checker(account) == Returns(cfg.eligible) && portfolio.Channels?
  {
    match checker(account)
    case Returns(status) =>
      if status != cfg.eligible then Returned(NoRewards)
      else (
        match portfolio
        case Channels(channels) => Returned(Rewards(RewardsOf(cfg.catalog, channels), false))
        case Unmappable(typeError) => Catch(cfg, ErrorObject(typeError))
      )
    case Throws(thrown) => Catch(cfg, thrown)
  }

  /** The service step by step: call the checker, test the status, collect the
      rewards channel by channel, and classify whatever was thrown. */
  method RewardsService<A>(cfg: Config, account: A, portfolio: Subscriptions, checker: A -> Eligibility)
    returns (r: Outcome)
    ensures r == Resolve(cfg, account, portfolio, checker)
  {
    var caught: Thrown;
    var eligibility := checker(account);
    if eligibility.Throws? {
      caught := eligibility.thrown;
    } else if eligibility.status != cfg.eligible {
      return Returned(NoRewards);
    } else if portfolio.Unmappable? {
      caught := ErrorObject(portfolio.typeError);
    } else {
      var data := CollectRewards(cfg.catalog, portfolio.channels);
      return Returned(Rewards(data, false));
    }
    r := Catch(cfg, caught);
  }

  /** A status other than the eligible sentinel gives no rewards and no flag,
      whatever the subscriptions. */
  lemma IneligibleGetsNothing<A>(cfg: Config, account: A, portfolio: Subscriptions, checker: A -> Eligibility)
    requires checker(account).Returns? && checker(account).status != cfg.eligible
    ensures Resolve(cfg, account, portfolio, checker) == Returned(Rewards([], false))
  {
  }

  /** The invalid-account error gives no rewards and raises the flag. */
  lemma InvalidAccountRaisesFlag<A>(cfg: Config, account: A, portfolio: Subscriptions, checker: A -> Eligibility)
    requires checker(account) == Throws(ErrorObject(cfg.invalidAccountNumber))
    ensures Resolve(cfg, account, portfolio, checker) == Returned(Rewards([], true))
  {
  }

  /** Any other error the checker throws, such as a technical failure, gives no
      rewards and no flag. */
  lemma OtherErrorGetsNothing<A>(cfg: Config, account: A, portfolio: Subscriptions, checker: A -> Eligibility)
    requires checker(account).Throws?
    requires checker(account).thrown != ErrorObject(cfg.invalidAccountNumber)
    requires checker(account).thrown != Nullish
    ensures Resolve(cfg, account, portfolio, checker) == Returned(Rewards([], false))
  {
  }

  /** A thrown `null` or `undefined` is the one case the service does not survive. */
  lemma NullishEscapes<A>(cfg: Config, account: A, portfolio: Subscriptions, checker: A -> Eligibility)
    requires checker(account) == Throws(Nullish)
    ensures Resolve(cfg, account, portfolio, checker) == Escapes
  {
  }

  /** An eligible customer gets the catalog rewards of the subscribed channels,
      concatenated in subscription order, and no flag. */
  lemma EligibleGetsCatalogRewards<A>(cfg: Config, account: A, channels: seq<Channel>, checker: A -> Eligibility)
    requires checker(account) == Returns(cfg.eligible)
    ensures Resolve(cfg, account, Channels(channels), checker)
            == Returned(Rewards(RewardsOf(cfg.catalog, channels), false))
    ensures |Resolve(cfg, account, Channels(channels), checker).rewards.data|
            == RewardCount(cfg.catalog, channels)
  {
    RewardsOfLength(cfg.catalog, channels);
  }

  /** An eligible customer holds a reward exactly when some subscribed channel
      lists it in the catalog. */
  lemma EligibleRewardMembership<A>(cfg: Config, account: A, channels: seq<Channel>,
                                    checker: A -> Eligibility, x: Reward)
    requires checker(account) == Returns(cfg.eligible)
    ensures x in Resolve(cfg, account, Channels(channels), checker).rewards.data
            <==> exists i :: 0 <= i < |channels| && channels[i] in cfg.catalog
                             && x in cfg.catalog[channels[i]]
  {
    RewardsOfMember(cfg.catalog, channels, x);
  }

  /** An eligible customer subscribed only to channels the catalog does not list,
      or to none, gets no rewards and no flag. */
  lemma EligibleUnlistedGetsNothing<A>(cfg: Config, account: A, channels: seq<Channel>, checker: A -> Eligibility)
    requires checker(account) == Returns(cfg.eligible)
    requires forall i :: 0 <= i < |channels| ==> channels[i] !in cfg.catalog
    ensures Resolve(cfg, account, Channels(channels), checker) == Returned(Rewards([], false))
  {
    UnlistedChannelsUnlockNothing(cfg.catalog, channels);
  }

  /** Subscriptions that cannot be mapped over, such as a bare channel string,
      give an eligible customer no rewards; the TypeError is caught and, its
      message not being the invalid-account sentinel, raises no flag. */
  lemma UnmappableGetsNothing<A>(cfg: Config, account: A, typeError: string, checker: A -> Eligibility)
    requires checker(account) == Returns(cfg.eligible)
    requires typeError != cfg.invalidAccountNumber
    ensures Resolve(cfg, account, Unmappable(typeError), checker) == Returned(Rewards([], false))
  {
  }

  /** The subscriptions are only read for an eligible customer. */
  lemma SubscriptionsReadOnlyWhenEligible<A>(cfg: Config, account: A, p1: Subscriptions, p2: Subscriptions,
                                             checker: A -> Eligibility)
    requires checker(account) != Returns(cfg.eligible)
    ensures Resolve(cfg, account, p1, checker) == Resolve(cfg, account, p2, checker)
  {
  }

  /** Three subscriptions to channels that each list a single reward give those
      three rewards, in subscription order. */
  lemma ThreeSingleRewardChannels<A>(cfg: Config, account: A, checker: A -> Eligibility,
                                     c1: Channel, c2: Channel, c3: Channel,
                                     x1: Reward, x2: Reward, x3: Reward)
    requires checker(account) == Returns(cfg.eligible)
    requires c1 in cfg.catalog && cfg.catalog[c1] == [x1]
    requires c2 in cfg.catalog && cfg.catalog[c2] == [x2]
    requires c3 in cfg.catalog && cfg.catalog[c3] == [x3]
    ensures Resolve(cfg, account, Channels([c1, c2, c3]), checker) == Returned(Rewards([x1, x2, x3], false))
  {
    RewardsOfCons(cfg.catalog, [c1, c2, c3]);
    RewardsOfCons(cfg.catalog, [c2, c3]);
    RewardsOfSingle(cfg.catalog, c3);
  }
}
