/** What one `/start` call does to the `users` collection, branch by branch, and what every
    call, and so every sequence of calls, keeps. */
module LedgerProperties {
  import opened Optional
  import opened Text
  import opened StartCommand
  import opened Ledger

  /** The caller is not rejected as "referred already". */
  predicate Admitted(users: Users, userId: string)
  {
    !(userId in users && IsReferred(users[userId]))
  }

  function Sent(chat: int, kinds: seq<MessageKind>): (msgs: seq<Message>)
    ensures |msgs| == |kinds|
    ensures forall i :: 0 <= i < |kinds| ==> msgs[i] == Message(ChatNumber(chat), kinds[i])
  {
    if kinds == [] then [] else [Message(ChatNumber(chat), kinds[0])] + Sent(chat, kinds[1..])
  }

  // ---------------------------------------------------------------------------------------
  // The branches of one call.

  /** An empty or all-white-space payload gets the welcome and the store is not touched: no
      document is created, and a failing store makes no difference. */
  lemma EmptyPayloadWelcomeOnly(users: Users, userId: string, chat: int, captured: string,
                                failOn: Option<StoreOp>)
    requires AllSpace(captured)
    ensures Step(users, userId, chat, ReadStart(captured), failOn)
            == Outcome(users, Sent(chat, [PleaseWait, Welcome]))
  {
  }

  /** A user whose `referredBy` is set is told so, whatever the payload, and nothing changes. */
  lemma AlreadyReferredRejected(users: Users, userId: string, chat: int,
                                referrerId: Option<string>, failOn: Option<StoreOp>)
    requires failOn != Some(ReadUser)
    requires userId in users && IsReferred(users[userId])
    ensures Step(users, userId, chat, WithPayload(referrerId), failOn)
            == Outcome(users, Sent(chat, [PleaseWait, ReferredAlready]))
  {
  }

  /** A new user with a non-empty payload gets a document in their chat: with no valid referral
      code, balance 0 and no referrer; with a code, the referee reward and the referrer, which
      is cleared again (the reward stays) when the referrer has no document. A user who uses
      their own code is their own referrer and collects both rewards. */
  lemma NewUserCreated(users: Users, userId: string, chat: int, referrerId: Option<string>)
    requires userId !in users
    ensures var o := Step(users, userId, chat, WithPayload(referrerId), None);
            && userId in o.users
            && o.users[userId].chatId == chat
            && o.users[userId].balance
               == (if referrerId.None? then 0
                   else if referrerId.value == userId then ReferReward + ReferrerReward
                   else ReferReward)
            && o.users[userId].referredBy
               == (if referrerId.Some? && referrerId.value != userId && referrerId.value !in users
                   then None else referrerId)
            && o.users[userId].referrals == (if referrerId == Some(userId) then [userId] else [])
  {
    if referrerId == Some(userId) {
      assert ArrayUnion([], userId) == [userId];
    }
  }

  /** An existing, unreferred user with no valid referral code is left as is and welcomed. */
  lemma ExistingUserWithoutCode(users: Users, userId: string, chat: int, failOn: Option<StoreOp>)
    requires userId in users && !IsReferred(users[userId]) && failOn != Some(ReadUser)
    ensures Step(users, userId, chat, WithPayload(None), failOn)
            == Outcome(users, Sent(chat, [PleaseWait, Welcome]))
  {
  }

  /** An existing, unreferred user with another user's code gets exactly the referee reward;
      the referrer is recorded when it has a document and cleared when it has none. With their
      own code the user is the referrer too: both rewards, and themselves in `referrals`. */
  lemma ExistingUserLinked(users: Users, userId: string, chat: int, referrerId: string)
    requires userId in users && !IsReferred(users[userId])
    ensures var o := Step(users, userId, chat, WithPayload(Some(referrerId)), None);
            var a := users[userId];
            o.users[userId]
            == if referrerId == userId then
                 a.(referredBy := Some(userId), balance := a.balance + ReferReward + ReferrerReward,
                    referrals := ArrayUnion(a.referrals, userId))
               else
                 a.(referredBy := if referrerId in users then Some(referrerId) else None,
                    balance := a.balance + ReferReward)
  {
  }

  /** With a code naming an existing document, the referrer gains exactly the referrer reward
      and the referee in `referrals` (once), the referee records the referrer, and the
      referrer's id is the chat the notice goes to. */
  lemma ReferrerCredited(users: Users, userId: string, chat: int, referrerId: string)
    requires Admitted(users, userId)
    requires referrerId != userId && referrerId in users
    ensures var o := Step(users, userId, chat, WithPayload(Some(referrerId)), None);
            && o.users[referrerId]
               == users[referrerId].(balance := users[referrerId].balance + ReferrerReward,
                                     referrals := ArrayUnion(users[referrerId].referrals, userId))
            && userId in o.users[referrerId].referrals
            && o.users[userId].referredBy == Some(referrerId)
            && o.sent == [Message(ChatNumber(chat), PleaseWait),
                          Message(ChatName(referrerId), ReferralUsed),
                          Message(ChatNumber(chat), Welcome)]
  {
  }

  /** With a code naming no document, the referee's `referredBy` is reset to null but the
      referee reward already credited stays, and the user is told the link is invalid. */
  lemma MissingReferrerKeepsCredit(users: Users, userId: string, chat: int, referrerId: string)
    requires Admitted(users, userId)
    requires referrerId != userId && referrerId !in users
    ensures var o := Step(users, userId, chat, WithPayload(Some(referrerId)), None);
            && o.users.Keys == users.Keys + {userId}
            && o.users[userId].referredBy == None
            && o.users[userId].balance
               == (if userId in users then users[userId].balance else 0) + ReferReward
            && o.sent == Sent(chat, [PleaseWait, InvalidReferral, Welcome])
  {
  }

  /** Opening one's own referral link as a new user: one document that is its own referrer,
      holds both rewards and lists itself in `referrals`; the handler has no self-referral check. */
  lemma SelfReferralPaysBoth(users: Users, id: nat, chat: int)
    requires IdString(id) !in users
    ensures var userId := IdString(id);
            var o := Step(users, userId, chat, ReadStart(" " + ReferralPayload(userId)), None);
            userId in o.users
            && o.users[userId] == Account(Some(userId), ReferReward + ReferrerReward, chat, [userId])
  {
    OwnLinkStart(id);
    NewUserCreated(users, IdString(id), chat, Some(IdString(id)));
  }

  /** Opening one's own referral link as an existing, unreferred user (for instance one whose
      first `/start` carried no valid code): the document becomes its own referrer, gains both
      rewards and lists itself in `referrals`. */
  lemma ExistingSelfReferralPaysBoth(users: Users, id: nat, chat: int)
    requires IdString(id) in users && !IsReferred(users[IdString(id)])
    ensures var userId := IdString(id);
            var a := users[userId];
            var o := Step(users, userId, chat, ReadStart(" " + ReferralPayload(userId)), None);
            userId in o.users
            && o.users[userId].referredBy == Some(userId)
            && o.users[userId].balance == a.balance + ReferReward + ReferrerReward
            && userId in o.users[userId].referrals
            && o.sent == [Message(ChatNumber(chat), PleaseWait),
                          Message(ChatName(userId), ReferralUsed),
                          Message(ChatNumber(chat), Welcome)]
  {
    var userId := IdString(id);
    OwnLinkStart(id);
    ExistingSelfReferral(users, userId, chat);
  }

  lemma ExistingSelfReferral(users: Users, userId: string, chat: int)
    requires userId in users && !IsReferred(users[userId])
    ensures var o := Step(users, userId, chat, WithPayload(Some(userId)), None);
            userId in o.users
            && o.users[userId].referredBy == Some(userId)
            && o.users[userId].balance == users[userId].balance + ReferReward + ReferrerReward
            && userId in o.users[userId].referrals
            && o.sent == [Message(ChatNumber(chat), PleaseWait),
                          Message(ChatName(userId), ReferralUsed),
                          Message(ChatNumber(chat), Welcome)]
  {
    ExistingUserLinked(users, userId, chat, userId);
  }

  /** The capture of the message sent by opening user `id`'s own link reads as that user. */
  lemma OwnLinkStart(id: nat)
    ensures ReadStart(" " + ReferralPayload(IdString(id))) == WithPayload(Some(IdString(id)))
  {
    var userId := IdString(id);
    StartTextRoundTrip(id);
    var captured := " " + ReferralPayload(userId);
    assert Capture(Command + " " + ReferralPayload(userId)).value == captured;
    assert captured[1] == 'r' && !IsSpace(captured[1]);
  }

  /** The call touches at most the caller's document and the named referrer's. */
  lemma OnlyUserAndReferrerChange(users: Users, userId: string, chat: int, start: Start,
                                  failOn: Option<StoreOp>)
    ensures var o := Step(users, userId, chat, start, failOn);
            forall k :: k in users && k != userId
                        && (start.Bare? || start.referrerId.None? || k != start.referrerId.value)
                        ==> o.users[k] == users[k]
  {
  }

  /** A store failure, caught by the handler, undoes nothing: when crediting the referrer
      fails, the referee keeps the referrer and the reward though the referrer got nothing. */
  lemma FailedCreditKeepsRefereeCredit(users: Users, userId: string, chat: int, referrerId: string)
    requires Admitted(users, userId)
    requires referrerId != userId && referrerId in users
    ensures var o := Step(users, userId, chat, WithPayload(Some(referrerId)), Some(CreditReferrer));
            && o.users[userId].referredBy == Some(referrerId)
            && o.users[userId].balance
               == (if userId in users then users[userId].balance else 0) + ReferReward
            && o.users[referrerId] == users[referrerId]
            && o.sent == Sent(chat, [PleaseWait, TryAgain])
  {
  }

  // ---------------------------------------------------------------------------------------
  // What every call keeps.

  /** Once set, `referredBy` is never overwritten, and no document is deleted. */
  lemma StepKeepsReferredBy(users: Users, userId: string, chat: int, start: Start,
                            failOn: Option<StoreOp>)
    ensures ReferredByKept(users, Step(users, userId, chat, start, failOn).users)
  {
  }

  /** Balances only go up, and only by the two rewards: a document's balance grows by 0, the
      referee reward, the referrer reward, or both (a self-referral), and a new document starts
      at 0, the referee reward, or both. */
  lemma StepBalanceIncrements(users: Users, userId: string, chat: int, start: Start,
                              failOn: Option<StoreOp>)
    ensures var o := Step(users, userId, chat, start, failOn);
            && BalancesKept(users, o.users)
            && (forall k :: k in users ==>
                  o.users[k].balance - users[k].balance
                  in {0, ReferReward, ReferrerReward, ReferReward + ReferrerReward})
            && (userId !in users && userId in o.users ==>
                  o.users[userId].balance in {0, ReferReward, ReferReward + ReferrerReward})
  {
  }

  /** `arrayUnion` keeps every `referrals` array free of duplicates. */
  lemma StepKeepsReferralsUnique(users: Users, userId: string, chat: int, start: Start,
                                 failOn: Option<StoreOp>)
    requires ReferralsUnique(users)
    ensures ReferralsUnique(Step(users, userId, chat, start, failOn).users)
  {
    match start
    case Bare =>
    case WithPayload(referrerId) =>
      var linked := AfterUserWrite(users, userId, chat, referrerId);
      if userId !in users {
        UniqueAfterWrite(users, userId, NewAccount(referrerId, chat));
      } else if referrerId.Some? {
        UniqueAfterWrite(users, userId, Linked(users[userId], referrerId.value));
      }
      assert ReferralsUnique(linked);
      if referrerId.Some? {
        var r := referrerId.value;
        if r in linked {
          UniqueAfterWrite(linked, r, Credited(linked[r], userId));
        } else {
          UniqueAfterWrite(linked, userId, linked[userId].(referredBy := None));
        }
      }
  }

  lemma UniqueAfterWrite(users: Users, k: string, a: Account)
    requires ReferralsUnique(users) && NoDuplicates(a.referrals)
    ensures ReferralsUnique(users[k := a])
  {
  }

  // ---------------------------------------------------------------------------------------
  // Repeated calls.

  /** After a referral is applied, the same `/start` again is rejected and changes nothing:
      the referee reward is paid once. */
  lemma RepeatReferralRejected(users: Users, userId: string, chat: int, referrerId: string,
                               failOn: Option<StoreOp>)
    requires Admitted(users, userId) && referrerId in users && referrerId != ""
    requires failOn != Some(ReadUser)
    ensures var start := WithPayload(Some(referrerId));
            var first := Step(users, userId, chat, start, None);
            Step(first.users, userId, chat, start, failOn)
            == Outcome(first.users, Sent(chat, [PleaseWait, ReferredAlready]))
  {
    var first := Step(users, userId, chat, WithPayload(Some(referrerId)), None);
    assert first.users[userId].referredBy == Some(referrerId);
  }

  /** A code naming no document can be used again and again: each call clears `referredBy`
      and keeps the reward, so the next call pays the referee reward once more. */
  lemma RepeatInvalidReferralPaysAgain(users: Users, userId: string, chat: int, referrerId: string)
    requires Admitted(users, userId)
    requires referrerId != userId && referrerId !in users
    ensures var start := WithPayload(Some(referrerId));
            var first := Step(users, userId, chat, start, None);
            var second := Step(first.users, userId, chat, start, None);
            && second.users[userId].balance == first.users[userId].balance + ReferReward
            && second.users[userId].referredBy == None
            && second.sent == first.sent
  {
    var first := Step(users, userId, chat, WithPayload(Some(referrerId)), None);
    MissingReferrerKeepsCredit(users, userId, chat, referrerId);
    assert Admitted(first.users, userId);
    MissingReferrerKeepsCredit(first.users, userId, chat, referrerId);
  }

  /** A worked case: user 111 opens the link of user 222, who has a document with balance 0. */
  lemma ReferralExample()
    ensures var users := map["222" := Account(None, 0, 222, [])];
            Step(users, "111", 111, WithPayload(Some("222")), None).users
            == map["222" := Account(None, 40000, 222, ["111"]),
                   "111" := Account(Some("222"), 10000, 111, [])]
  {
    var users := map["222" := Account(None, 0, 222, [])];
    var o := Step(users, "111", 111, WithPayload(Some("222")), None);
    ReferrerCredited(users, "111", 111, "222");
    NewUserCreated(users, "111", 111, Some("222"));
    assert ArrayUnion([], "111") == ["111"];
    assert o.users.Keys == {"222", "111"};
  }

  lemma ReferralExamplePayload()
    ensures ReadStart(" ref_222") == WithPayload(Some("222"))
  {
    assert " ref_222" == " " + ReferralPayload("222");
    assert AllSpace(" ") && IsNumeral("222");
    ReadStartOfReferral(" ", "222");
  }

  // ---------------------------------------------------------------------------------------
  // Sequences of calls.

  /** One `/start` command, as the handler receives it. */
  datatype Call = Call(userId: string, chat: int, start: Start, failOn: Option<StoreOp>)

  /** The collection after handling `calls` one after another, from `users`. */
  function Run(users: Users, calls: seq<Call>): (after: Users)
    ensures users.Keys <= after.Keys
    decreases |calls|
  {
    if calls == [] then users
    else
      var c := calls[0];
      Run(Step(users, c.userId, c.chat, c.start, c.failOn).users, calls[1..])
  }

  /** However many calls follow, a set `referredBy` stays as it is. */
  lemma {:induction false} RunKeepsReferredBy(users: Users, calls: seq<Call>)
    ensures ReferredByKept(users, Run(users, calls))
    decreases |calls|
  {
    if calls != [] {
      var c := calls[0];
      var next := Step(users, c.userId, c.chat, c.start, c.failOn).users;
      StepKeepsReferredBy(users, c.userId, c.chat, c.start, c.failOn);
      RunKeepsReferredBy(next, calls[1..]);
    }
  }

  /** However many calls follow, no balance goes down. */
  lemma {:induction false} RunKeepsBalances(users: Users, calls: seq<Call>)
    ensures BalancesKept(users, Run(users, calls))
    decreases |calls|
  {
    if calls != [] {
      var c := calls[0];
      var next := Step(users, c.userId, c.chat, c.start, c.failOn).users;
      StepBalanceIncrements(users, c.userId, c.chat, c.start, c.failOn);
      RunKeepsBalances(next, calls[1..]);
    }
  }

  /** However many calls follow, no `referrals` array gains a duplicate. */
  lemma {:induction false} RunKeepsReferralsUnique(users: Users, calls: seq<Call>)
    requires ReferralsUnique(users)
    ensures ReferralsUnique(Run(users, calls))
    decreases |calls|
  {
    if calls != [] {
      var c := calls[0];
      StepKeepsReferralsUnique(users, c.userId, c.chat, c.start, c.failOn);
      RunKeepsReferralsUnique(Step(users, c.userId, c.chat, c.start, c.failOn).users, calls[1..]);
    }
  }
}
