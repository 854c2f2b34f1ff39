/** The referral-reward ledger: the documents of the `users` collection, the messages the
    `/start` handler sends, and `Step`, the effect of one handler call on the collection. */
module Ledger {
  import opened Optional
  import opened Text
  import opened StartCommand

  /** Credited to a user who arrives with a valid referral payload. */
  const ReferReward := 10000

  /** Credited to the user whose referral link was used. */
  const ReferrerReward := 40000

  /** A document of `users`, keyed by the decimal user id. `referredBy` is `None` where the
      document holds `null`; `referrals` is empty where the field is missing. */
  datatype Account = Account(referredBy: Option<string>, balance: int, chatId: int,
                             referrals: seq<string>)

  type Users = map<string, Account>

  /** The truthiness test `userDoc.data().referredBy`: set, and not the empty string. */
  predicate IsReferred(a: Account)
  {
    a.referredBy.Some? && a.referredBy.value != ""
  }

  /** Where a message goes: the caller's numeric chat id, or the referrer's id string, which
      the handler passes as a chat id. */
  datatype Chat = ChatNumber(id: int) | ChatName(name: string)

  /** The messages the handler sends, by kind; their text and keyboards are not modelled. */
  datatype MessageKind =
    | PleaseWait          // "Please wait", sent first on every call
    | Welcome             // the welcome text with the caller's own referral link
    | ReferredAlready     // "You Have Been Referred Already!"
    | InvalidReferral     // "Invalid referral link - referrer not found"
    | ReferralUsed        // "A Sign Up used your referral!", to the referrer
    | TryAgain            // "An error occurred. Please try again."

  datatype Message = Message(to: Chat, kind: MessageKind)

  /** The store operations of one call, in the order the handler performs them; a call may
      be given the one that fails (throws), and the failure is caught by the handler. */
  datatype StoreOp =
    | ReadUser            // userRef.get()
    | WriteUser           // userRef.set(...) for a new user, userRef.update(...) for an existing one
    | ReadReferrer        // referrerRef.get()
    | CreditReferrer      // referrerRef.update(increment, arrayUnion)
    | ClearReferredBy     // userRef.update({ referredBy: null })

  /** The collection after a call, and the messages sent, in the order they are sent. */
  datatype Outcome = Outcome(users: Users, sent: seq<Message>)

  ghost predicate NoDuplicates(s: seq<string>)
  {
    forall i, j :: 0 <= i < j < |s| ==> s[i] != s[j]
  }

  /** Firestore's `arrayUnion(x)` applied to an array field: appends `x` unless it is there. */
  function ArrayUnion(s: seq<string>, x: string): (r: seq<string>)
    ensures s <= r
    ensures |r| == if x in s then |s| else |s| + 1
    ensures forall y :: y in r <==> y in s || y == x
    ensures NoDuplicates(s) ==> NoDuplicates(r)
  {
    if x in s then s else s + [x]
  }

  /** The document `userRef.set` writes for a new user. */
  function NewAccount(referrerId: Option<string>, chat: int): Account
  {
    Account(referrerId, if referrerId.Some? then ReferReward else 0, chat, [])
  }

  /** An existing user after `update({ referredBy, Balance: increment(referReward) })`. */
  function Linked(a: Account, referrerId: string): Account
  {
    a.(referredBy := Some(referrerId), balance := a.balance + ReferReward)
  }

  /** The referrer after `update({ Balance: increment(referrerReward), referrals: arrayUnion })`. */
  function Credited(a: Account, userId: string): Account
  {
    a.(balance := a.balance + ReferrerReward, referrals := ArrayUnion(a.referrals, userId))
  }

  /** The caught store failure: the writes already made stay, and the caller is told to retry. */
  function Aborted(users: Users, me: Chat): Outcome
  {
    Outcome(users, [Message(me, PleaseWait), Message(me, TryAgain)])
  }

  /** The users collection after the first write of a call that got past the duplicate check:
      a new user is created (with the referral, if any); an existing one is linked to the
      referrer, or left alone when there is none. */
  function AfterUserWrite(users: Users, userId: string, chat: int, referrerId: Option<string>)
    : (linked: Users)
    ensures linked.Keys == users.Keys + {userId}
    ensures forall k :: k in users && k != userId ==> linked[k] == users[k]
  {
    if userId !in users then users[userId := NewAccount(referrerId, chat)]
    else if referrerId.Some? then users[userId := Linked(users[userId], referrerId.value)]
    else users
  }

  /** One call of the `/start` handler for user `userId` in chat `chat`, where `start` is what
      the captured text says and `failOn` is the store operation that fails if the call
      reaches it (`None`: the store does not fail). */
  function Step(users: Users, userId: string, chat: int, start: Start, failOn: Option<StoreOp>)
    : (o: Outcome)
    ensures users.Keys <= o.users.Keys <= users.Keys + {userId}
    ensures |o.sent| >= 2 && o.sent[0] == Message(ChatNumber(chat), PleaseWait)
  {
    var me := ChatNumber(chat);
    match start
    case Bare =>
      Outcome(users, [Message(me, PleaseWait), Message(me, Welcome)])
    case WithPayload(referrerId) =>
      if failOn == Some(ReadUser) then
        Aborted(users, me)
      else if userId in users && IsReferred(users[userId]) then
        Outcome(users, [Message(me, PleaseWait), Message(me, ReferredAlready)])
      else if failOn == Some(WriteUser) && (userId !in users || referrerId.Some?) then
        Aborted(users, me)
      else
        var linked := AfterUserWrite(users, userId, chat, referrerId);
        match referrerId
        case None =>
          Outcome(linked, [Message(me, PleaseWait), Message(me, Welcome)])
        case Some(r) =>
          if failOn == Some(ReadReferrer) then
            Aborted(linked, me)
          else if r in linked then
            if failOn == Some(CreditReferrer) then Aborted(linked, me)
            else Outcome(linked[r := Credited(linked[r], userId)],
                         [Message(me, PleaseWait), Message(ChatName(r), ReferralUsed),
                          Message(me, Welcome)])
          else if failOn == Some(ClearReferredBy) then
            Aborted(linked, me)
          else
            Outcome(linked[userId := linked[userId].(referredBy := None)],
                    [Message(me, PleaseWait), Message(me, InvalidReferral), Message(me, Welcome)])
  }

  // ---------------------------------------------------------------------------------------
  // The properties the ledger keeps from one state of the collection to the next.

  /** A user whose `referredBy` is set keeps it, and no document disappears. */
  ghost predicate ReferredByKept(before: Users, after: Users)
  {
    && before.Keys <= after.Keys
    && forall k :: k in before && IsReferred(before[k]) ==> after[k].referredBy == before[k].referredBy
  }

  /** No balance goes down. */
  ghost predicate BalancesKept(before: Users, after: Users)
  {
    && before.Keys <= after.Keys
    && forall k :: k in before ==> after[k].balance >= before[k].balance
  }

  /** No `referrals` array holds the same user twice. */
  ghost predicate ReferralsUnique(users: Users)
  {
    forall k :: k in users ==> NoDuplicates(users[k].referrals)
  }
}
