# Rewards resolver — a Dafny model

This project models `rewardsService`, the reward resolver of a small customer
rewards service. The resolver takes three things: a customer account number, a
portfolio of channel subscriptions, and an injected eligibility checker. It
returns a record `{ data, invalidAccountNumber? }`:

- It calls the checker once, with the account number.
- If the checker returns any status other than the "eligible" sentinel, the
  result is no rewards.
- If the customer is eligible, every subscribed channel is looked up in the
  reward catalog. A channel the catalog does not list gives no rewards. The
  per-channel lists are flattened in subscription order, with no deduplication.
- Anything thrown is caught. An error whose message is the invalid-account
  sentinel gives no rewards and sets `invalidAccountNumber: true`. Every other
  error gives no rewards and no flag.

The model has two modules:

- `Catalog` (`catalog.dfy`) models the catalog lookup (`customerRewards`) and
  the map-then-flatten of the subscriptions. It includes an iterative
  `CollectRewards` proved equal to the functional definition.
- `Redeem` (`redeem.dfy`) models the checker outcome, the subscriptions, the
  result record and the try/catch. `Resolve` is the service as one pure
  function. `RewardsService` is the same service written step by step, proved
  equal to `Resolve`.

The catalog and both sentinels (`eligible`, `invalidAccountNumber`) are
parameters in a `Config` value, because the constants file is not part of this
model. The account number is a type parameter: it is opaque and is only passed
to the checker. The checker is a total function from account numbers to an
`Eligibility` outcome. This outcome is either `Returns(status)` or
`Throws(thrown)`.

A thrown value can take one of three forms:

- `ErrorObject(message)`: an error with a message.
- `NoMessage`: a value whose `message` is undefined, for example a thrown
  string. Its message can never equal the string sentinel.
- `Nullish`: a thrown `null` or `undefined`. Reading `err.message` in the catch
  block then throws a new TypeError, which leaves the service. This is modelled
  as the outcome `Escapes`.

Subscriptions are either `Channels(list)` or `Unmappable(typeError)`.
`Unmappable` stands for a value without `.map`, such as a bare channel string
or a missing portfolio. Calling `.map` on it throws a TypeError. The same catch
block classifies that error by its message, like any other error. A bare
string is not walked character by character, as one might expect: a string has
no `.map`, so the result is the caught TypeError and empty `data`. The model
follows the code on this point.
The TypeError's text is defined by the JavaScript engine, so the model carries
it in the `Unmappable` value. If that text ever equalled the invalid-account
sentinel, the code would set the flag. `Resolve`'s contract (`FlagRaised`)
states exactly that.

## Model

| member | source | states |
|---|---|---|
| Catalog.RewardsOfSingle | redeemService.js:10-13 | a single subscription gives exactly that channel's catalog entry, or nothing when the catalog does not list the channel |
| Catalog.RewardsOfCons | redeemService.js:22-24 | the rewards of a non-empty list are the first channel's entry followed by the rewards of the rest |
| Catalog.FlattenAppend | redeemService.js:22-23 | flattening one level distributes over concatenation of the outer list |
| Catalog.RewardsOfAppend | redeemService.js:22-24 | the lookup distributes over concatenation: rewards(s1 + s2) == rewards(s1) + rewards(s2) |
| Catalog.RewardsOfSplit | redeemService.js:22-24 | the rewards follow subscription order: channel i's entry sits between the rewards of the channels before it and after it |
| Catalog.RewardsOfLength | redeemService.js:22-24 | the number of rewards equals the sum of the catalog entry lengths of the subscribed channels, duplicates included |
| Catalog.RewardsOfMember | redeemService.js:10-24 | a reward is in the result if and only if some subscribed channel is in the catalog and lists it |
| Catalog.RewardsOfEmptyIff | redeemService.js:10-24 | the result is empty if and only if every subscribed channel is unlisted or has an empty catalog entry |
| Catalog.UnlistedChannelsUnlockNothing | redeemService.js:10-13 | subscriptions only to unlisted channels, including none, give no rewards |
| Catalog.RewardsOfListed | redeemService.js:10-13 | removing the unlisted channels from the subscriptions does not change the rewards; `Listed` keeps exactly the subscribed channels the catalog lists |
| Catalog.CollectRewards | redeemService.js:21-26 | collecting channel by channel gives the flattened lookup, with as many rewards as the catalog entries sum to |
| Redeem.Catch | redeemService.js:27-37 | a caught value never gives rewards; the flag is set if and only if the value is an error carrying the invalid-account sentinel; only a nullish value escapes |
| Redeem.Resolve | redeemService.js:15-37 | the service escapes if and only if the checker throws null/undefined; a set flag comes with empty data; the flag is set if and only if FlagRaised holds; non-empty data implies an eligible status and a list of subscriptions |
| Redeem.RewardsService | redeemService.js:3-38 | the step-by-step service, with its loop over subscriptions, returns exactly what Resolve returns |
| Redeem.IneligibleGetsNothing | redeemService.js:17-18 | a non-eligible status gives empty data and no flag, whatever the subscriptions |
| Redeem.InvalidAccountRaisesFlag | redeemService.js:28-33 | the invalid-account error gives empty data with the flag set |
| Redeem.OtherErrorGetsNothing | redeemService.js:36 | any other thrown error, such as a technical failure, gives empty data and no flag |
| Redeem.NullishEscapes | redeemService.js:28 | a thrown null/undefined makes the service itself throw |
| Redeem.EligibleGetsCatalogRewards | redeemService.js:21-26 | an eligible customer gets the flattened catalog rewards of the subscriptions in order, no flag, and the summed count |
| Redeem.EligibleRewardMembership | redeemService.js:21-26 | an eligible customer holds a reward if and only if a subscribed channel lists it |
| Redeem.EligibleUnlistedGetsNothing | redeemService.js:10-26 | an eligible customer subscribed only to unlisted channels, or to none, gets empty data and no flag |
| Redeem.UnmappableGetsNothing | redeemService.js:24-36 | an eligible customer whose subscriptions cannot be mapped gets empty data and no flag (the TypeError is caught), when the TypeError text is not the invalid-account sentinel |
| Redeem.SubscriptionsReadOnlyWhenEligible | redeemService.js:16-24 | unless the status is eligible, the result does not depend on the subscriptions |
| Redeem.ThreeSingleRewardChannels | __tests__/redeemService.spec.js:171-185 | three channels that each list one reward give those three rewards, length 3, in subscription order |

## Left out

- I/O, asynchrony and timing of the eligibility checker: it is a pure function of the account number here.
- The contents of the constants file (channel names, reward names, sentinel strings): they are parameters.
- JavaScript prototype-chain lookups on the plain-object catalog (a channel named `toString` would hit an inherited property): the catalog is a finite map.
- The mutation of the result object by `Object.assign` and the aliasing of catalog arrays: only the returned value is modelled.
- Non-string statuses and non-string channel values: `!==` on a status is modelled as string inequality, and channels are strings. JavaScript would coerce other channel values into property keys.
- A checker that is not callable, and catalog entries that are not arrays: these are outside the duck-typed interface this model assumes.
- The text of the engine's TypeError for unmappable subscriptions: it is carried by the `Unmappable` value instead of being fixed.
- Redeem.EligibleGetsCatalogRewards: does not model the engine's limit on the number of arguments `Function.prototype.apply` may pass. The flatten spreads the mapped list as arguments, so a very long subscription list makes the engine throw a RangeError inside the `try`: roughly 65,536 arguments in JavaScriptCore, and roughly 10^5 in V8, where the limit depends on stack depth. The catch then returns empty `data`, but the lemma promises the full list for every length, because the limit is not a fixed property of the language.
- The destructuring of the single argument object happens outside the `try`: a `null` or `undefined` argument makes the service throw before the checker is called. The model takes its three inputs as separate parameters, so that case does not arise.
