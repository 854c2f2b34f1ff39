# Referral-reward ledger of the Chypto Telegram bot

This project models the `/start` command handler of the Chypto bot in Dafny and proves its
properties. The handler runs the bot's two-sided referral programme over the `users`
collection of a document store. A user who opens another user's referral link
(`/start ref_<id>`) gets 10000 points. The user whose link it is gets 40000 points, the new
user is added to their `referrals` array, and they are sent a notice.

The model has five modules:

- `Text`: the character classes and string operations the handler relies on. These are
  JavaScript's `trim` and its white-space set, the regular-expression classes `.` and `\d`,
  and `Number.prototype.toString` on user ids. `NumeralValue` reads a numeral back into a
  number.
- `StartCommand`: the pure front of the handler. `Capture` gives the text the pattern
  `/\/start(.*)/` captures. `StartPayload` trims it. `ParseRef` accepts the referrer id only
  when the trimmed payload is exactly `ref_` followed by one or more digits.
  `ReadStart(captured)` puts the result together: `Bare` when the payload is empty, otherwise
  `WithPayload(referrerId)`.
- `Ledger`: the documents (`Account`: `referredBy`, `Balance`, `chat_id`, `referrals`), the
  messages the handler sends (as kinds, with their chat), and the store operations a call
  performs. `Step` is the effect of one call on the collection and the messages it sends.
  Its `failOn` parameter names the store operation that throws, if the call reaches it.
- `LedgerProperties`: what each branch of a call does, what every call keeps, and what
  repeated calls do. `Run` handles a sequence of calls, and three lemmas prove that the
  invariants hold over any such sequence.
- `Handler`: the class `ReferralBot`. It owns `users: map<string, Account>`, and its
  methods `Start` and `Record` change the map step by step, in the handler's order and with
  its early returns. Each method is proved to produce exactly the collection and messages
  that `Step` specifies. `Start` also states the three invariants.

`bot.js` and `bot1.js` contain the same handler; they differ only in transport and start-up
code. The table cites `bot1.js`. The `bot.js` lines are 20 lower up to `bot1.js:119`
(`bot.js:24-99`) and 19 lower after it (`bot.js:101-126`). The reward constants are at
`bot.js:21-22`.

The model follows the code. The code has the following behaviours, each proved as a lemma:

- There is no self-referral check. A new user who opens their own link becomes their own
  referrer, gets both rewards and appears in their own `referrals`
  (`SelfReferralPaysBoth`). So does an existing user who is not yet referred, for instance
  one whose first `/start` carried no valid code (`ExistingSelfReferralPaysBoth`).
- The referee is credited before the referrer is looked up. When the referrer has no
  document, `referredBy` is reset to null but the 10000 stays. Sending the same
  `/start ref_<missing id>` again pays 10000 again (`RepeatInvalidReferralPaysAgain`).
- The two writes are separate and nothing is rolled back. If crediting the referrer fails,
  the referee keeps the referrer and the reward while the referrer gets nothing
  (`FailedCreditKeepsRefereeCredit`).
- Referrer ids are digit strings only, so a code like `ref_r1` gives no referrer.

## Model

| member | source | states |
|---|---|---|
| `Text.LeadingSpaces` | bot1.js:52 | the count of leading characters that `trim` removes: all are white space, and the next one is not |
| `Text.TrailingSpaces` | bot1.js:52 | the count of trailing characters that `trim` removes: all are white space, and the one before them is not |
| `Text.Trim` | bot1.js:52 | `trim` returns the slice of its input that starts after the leading white space and is followed only by white space; it neither starts nor ends with white space |
| `Text.TrimEmpty` | bot1.js:52-53 | `trim` gives the empty (falsy) string exactly when the input is all white space |
| `Text.TrimOfSameRest` | bot1.js:52 | two strings that agree after their leading white space trim to the same string |
| `Text.TrimOfTrimmed` | bot1.js:52 | a string with no white space at either end is unchanged by `trim` |
| `Text.TrimIdempotent` | bot1.js:52 | trimming twice equals trimming once |
| `Text.LeadingSpacesOfPrefix` | bot1.js:52 | white space put in front adds exactly its length to the leading white-space count |
| `Text.TrimLeadingSpace` | bot1.js:52 | leading white space does not change the result of `trim` |
| `Text.NatString` | bot1.js:46 | `toString` of a non-negative id is a non-empty string of ASCII digits without a leading zero |
| `Text.NumeralRoundTrip` | bot1.js:46 | reading the decimal string of `n` back gives `n` |
| `Text.IdString` | bot1.js:46 | `msg.from.id.toString()` is a digit string exactly when the id is non-negative, and starts with `-` otherwise |
| `Text.IdStringInjective` | bot1.js:46 | distinct user ids give distinct document keys |
| `StartCommand.FindCommand` | bot1.js:44 | finds the leftmost occurrence of `/start` at or after a position, or says there is none |
| `StartCommand.RestOfLine` | bot1.js:44 | a greedy `(.*)` captures up to the first line terminator or the end of the text |
| `StartCommand.Capture` | bot1.js:44 | `match[1]` exists exactly when the text contains `/start`; it is the rest of the line after the leftmost `/start` |
| `StartCommand.NoLineTerminatorRestOfLine` | bot1.js:44 | a text without line terminators is captured whole |
| `StartCommand.StartPayload` | bot1.js:52-53 | the payload is the trimmed capture; it is empty exactly when the capture is empty or all white space |
| `StartCommand.ParseRef` | bot1.js:70-73 | a referrer id is returned only when the payload is `ref_` followed by that id, which is one or more digits; every payload of any other form gives null |
| `StartCommand.ParseRefOfNumeral` | bot1.js:70-73 | `ref_` plus any non-empty digit string parses to exactly those digits |
| `StartCommand.ReadStart` | bot1.js:52-74 | the handler stops with the welcome exactly when the capture is all white space; otherwise it goes on with the referrer id parsed from the trimmed payload |
| `StartCommand.ReadStartOfReferral` | bot1.js:52-73 | a referral payload after any leading white space yields exactly its digits as the referrer id |
| `StartCommand.ReferralLinkRoundTrip` | bot1.js:48 | the payload of a user's own referral link parses back to that user's id for a non-negative id, and to null for a negative one |
| `StartCommand.StartTextRoundTrip` | bot1.js:44-73 | the message `/start ref_<id>` sent by opening the link is captured, trimmed and parsed back to the id |
| `Ledger.ArrayUnion` | bot1.js:113 | `arrayUnion` keeps the array as a prefix and appends the new element exactly when it is absent, so the result is determined and adds no duplicate |
| `Ledger.AfterUserWrite` | bot1.js:87-102 | the create-or-update of the user's document adds only that key and changes no other document |
| `Ledger.Step` | bot1.js:44-145 | one call creates at most the caller's document, deletes none, and always sends "Please wait" to the caller first |
| `LedgerProperties.EmptyPayloadWelcomeOnly` | bot1.js:52-66 | an empty or white-space payload sends only the welcome and leaves the store unchanged, even when the store would fail |
| `LedgerProperties.AlreadyReferredRejected` | bot1.js:80-84 | a user whose `referredBy` is set gets only "Referred Already" and nothing changes |
| `LedgerProperties.NewUserCreated` | bot1.js:87-124 | a new user is created with their chat, `Balance` 10000 with a code and 0 without, and `referredBy` the referrer (reset to null when the referrer is missing); with their own code they get 50000 and list themselves |
| `LedgerProperties.ExistingUserWithoutCode` | bot1.js:95-105 | an existing unreferred user without a valid code is left unchanged and welcomed |
| `LedgerProperties.ExistingUserLinked` | bot1.js:95-123 | an existing unreferred user with another user's code gets exactly +10000, and `referredBy` is the referrer if that referrer has a document, otherwise null; with their own code the user also gets the referrer's +40000 and is added to their own `referrals` |
| `LedgerProperties.ReferrerCredited` | bot1.js:105-119 | an existing referrer gets exactly +40000 and the referee added to `referrals` by union; the referee records the referrer; the notice goes to the chat whose id is the referrer id |
| `LedgerProperties.MissingReferrerKeepsCredit` | bot1.js:120-123 | a missing referrer resets the referee's `referredBy` to null; the 10000 credited before stays, and the user is told the link is invalid |
| `LedgerProperties.SelfReferralPaysBoth` | bot1.js:70-114 | a new user opening their own link gets 50000, is their own referrer, and lists themselves in `referrals` |
| `LedgerProperties.OwnLinkStart` | bot1.js:48-73 | the capture of the message sent by opening a user's own link reads as a referral by that user |
| `LedgerProperties.ExistingSelfReferral` | bot1.js:95-123 | an existing unreferred user naming themselves becomes their own referrer, gains +50000, lists themselves in `referrals`, and is sent the "referral used" notice |
| `LedgerProperties.ExistingSelfReferralPaysBoth` | bot1.js:44-123 | an existing unreferred user who opens their own link becomes their own referrer with both rewards and themselves in `referrals` |
| `LedgerProperties.OnlyUserAndReferrerChange` | bot1.js:76-125 | no document other than the caller's and the named referrer's changes |
| `LedgerProperties.FailedCreditKeepsRefereeCredit` | bot1.js:105-144 | if the referrer update throws, the referee's link and 10000 stay, the referrer is unchanged, and only "try again" follows "Please wait" |
| `LedgerProperties.StepKeepsReferredBy` | bot1.js:81-122 | a `referredBy` that is set is never overwritten, and no document is deleted |
| `LedgerProperties.StepBalanceIncrements` | bot1.js:88-114 | no balance decreases; a balance grows only by 0, 10000, 40000 or 50000, and a new document starts at 0, 10000 or 50000 |
| `LedgerProperties.StepKeepsReferralsUnique` | bot1.js:111-114 | if no `referrals` array holds a duplicate before a call, none does after it |
| `LedgerProperties.RepeatReferralRejected` | bot1.js:80-100 | after a referral has been applied, the same `/start` is rejected and changes nothing, so the referee reward is paid once |
| `LedgerProperties.RepeatInvalidReferralPaysAgain` | bot1.js:95-123 | repeating a code whose referrer has no document pays the referee 10000 again each time and leaves `referredBy` null |
| `LedgerProperties.ReferralExample` | bot1.js:87-114 | user 111 referred by user 222 (balance 0) ends with 10000 and referrer 222; user 222 ends with 40000 and referrals `["111"]` |
| `LedgerProperties.ReferralExamplePayload` | bot1.js:52-73 | the capture ` ref_222` names referrer 222 |
| `LedgerProperties.Run` | bot1.js:44-145 | handling calls one after another never deletes a document |
| `LedgerProperties.RunKeepsReferredBy` | bot1.js:81-122 | over any sequence of calls, a `referredBy` that is set stays unchanged |
| `LedgerProperties.RunKeepsBalances` | bot1.js:88-114 | over any sequence of calls, no balance decreases |
| `LedgerProperties.RunKeepsReferralsUnique` | bot1.js:111-114 | over any sequence of calls, `referrals` arrays stay free of duplicates |
| `Handler.ReferralBot.Start` | bot1.js:44-145 | the handler changes `users` and sends messages exactly as `Step` says for the captured text; it keeps `referredBy`, balances and unique `referrals` |
| `Handler.ReferralBot.Record` | bot1.js:76-144 | the store part (read the user, reject, create or link, credit or reset, catch) changes `users` and replies exactly as `Step` says for a non-empty payload |

## Left out

- Transport and start-up are not modelled: Firebase credential parsing and initialisation (`bot1.js:6-34`, `bot.js:1-12`), polling or webhook set-up, and the files `api/webhook.js` and `api/adapter.js`. These files only forward updates.
- Telegram messages are modelled as a kind and a chat. Their text, Markdown and inline keyboards, and the unused `balanceMessage` (`bot1.js:128`), are left out. `sendMessage` is not awaited. Delivery order, delivery failures and the rejections they cause are not modelled; the model lists messages in the order they are issued.
- `logEvent` and `console` output are left out because they are console I/O. `createdAt` is left out because it is a server timestamp.
- Concurrency is not modelled. Each call is one sequential step. The real handler awaits between its reads and writes, and concurrent `/start` calls can interleave there. The model does not claim that a call is atomic or that calls are linearizable.
- A store failure is modelled as one operation that throws. A failed write is taken as not applied, and earlier writes stay.
- `Account.balance` is an unbounded integer. Firestore's 64-bit and floating-point number limits are not modelled. Documents written by other programs with a missing or non-numeric `Balance`, or a non-string `referredBy`, are not modelled. A missing `referrals` array is modelled as an empty one.
- Strings are sequences of Unicode code points, while JavaScript strings are UTF-16 code units. For the ASCII command, prefix and digits, and for the white-space characters `trim` removes, the two give the same results.
- The handler runs only for texts that contain `/start`, so `Handler.ReferralBot.Start` requires that the capture exists.
- Guards the handler does not have are not modelled: a self-referral check, looking the referrer up before crediting the referee, a rollback or compensating write, atomic conditional updates, and protection against a repeated delivery of the same update. The model proves what the code does in these cases instead (see above).
- `Text.IdString`: user ids are exact integers in Telegram's range (magnitude below 2^53), where `toString` gives plain decimal digits; JavaScript's number precision and exponent notation for larger magnitudes are not modelled, and `Handler.ReferralBot.Start` accepts any integer `fromId`.
