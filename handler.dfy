/** The `/start` handler as the bot runs it: one object that owns the `users` collection and
    changes it step by step, with the early returns of the handler, on each command. */
module Handler {
  import opened Optional
  import opened Text
  import opened StartCommand
  import opened Ledger
  import opened LedgerProperties

  class ReferralBot {
    /** The `users` collection of the document store, keyed by user id. */
    var users: Users

    constructor(users: Users)
      ensures this.users == users
    {
      this.users := users;
    }

    /** Handles the message `text` from the user with numeric id `fromId` in chat `chatId`; the
        bot calls it only for texts that contain `/start`. `failOn` is the store operation that
        throws, if the call reaches it. Returns the messages sent, in order. */
    method Start(fromId: int, chatId: int, text: string, failOn: Option<StoreOp>)
      returns (sent: seq<Message>)
      requires Capture(text).Some?
      modifies this
      ensures Outcome(users, sent)
              == Step(old(users), IdString(fromId), chatId, ReadStart(Capture(text).value), failOn)
      ensures ReferredByKept(old(users), users)
      ensures BalancesKept(old(users), users)
      ensures ReferralsUnique(old(users)) ==> ReferralsUnique(users)
    {
      ghost var start := ReadStart(Capture(text).value);
      StepKeepsReferredBy(users, IdString(fromId), chatId, start, failOn);
      StepBalanceIncrements(users, IdString(fromId), chatId, start, failOn);
      if ReferralsUnique(users) {
        StepKeepsReferralsUnique(users, IdString(fromId), chatId, start, failOn);
      }

      var me := ChatNumber(chatId);
      var userId := IdString(fromId);
      var captured := Capture(text).value;
      sent := [Message(me, PleaseWait)];

      var startPayload := if captured != "" then Trim(captured) else "";
      assert startPayload == StartPayload(captured);
      if startPayload == "" {
        sent := sent + [Message(me, Welcome)];
        return;
      }
      var referrerId := ParseRef(startPayload);
      assert start == WithPayload(referrerId);
      var replies := Record(userId, chatId, referrerId, failOn);
      sent := sent + replies;
    }

    /** The store part of the handler, reached with a non-empty payload: read the user, reject
        one already referred, create or link the user, then credit the referrer or clear the
        referral. A failing store operation ends it with the "try again" message and leaves the
        writes already made. Returns the messages sent after "Please wait". */
    method Record(userId: string, chatId: int, referrerId: Option<string>, failOn: Option<StoreOp>)
      returns (replies: seq<Message>)
      modifies this
      ensures Outcome(users, [Message(ChatNumber(chatId), PleaseWait)] + replies)
              == Step(old(users), userId, chatId, WithPayload(referrerId), failOn)
    {
      var me := ChatNumber(chatId);
      if failOn == Some(ReadUser) {
        return [Message(me, TryAgain)];
      }
      var userDoc := if userId in users then Some(users[userId]) else None;
      if userDoc.Some? && IsReferred(userDoc.value) {
        return [Message(me, ReferredAlready)];
      }

      if userDoc.None? {
        if failOn == Some(WriteUser) {
          return [Message(me, TryAgain)];
        }
        users := users[userId := Account(referrerId, if referrerId.Some? then ReferReward else 0,
                                         chatId, [])];
      } else if referrerId.Some? {
        if failOn == Some(WriteUser) {
          return [Message(me, TryAgain)];
        }
        var doc := users[userId];
        users := users[userId := doc.(referredBy := referrerId, balance := doc.balance + ReferReward)];
      }

      replies := [];
      if referrerId.Some? {
        var r := referrerId.value;
        if failOn == Some(ReadReferrer) {
          return [Message(me, TryAgain)];
        }
        var referrerDoc := if r in users then Some(users[r]) else None;
        if referrerDoc.Some? {
          if failOn == Some(CreditReferrer) {
            return [Message(me, TryAgain)];
          }
          var doc := users[r];
          users := users[r := doc.(balance := doc.balance + ReferrerReward,
                                   referrals := ArrayUnion(doc.referrals, userId))];
          replies := replies + [Message(ChatName(r), ReferralUsed)];
        } else {
          if failOn == Some(ClearReferredBy) {
            return [Message(me, TryAgain)];
          }
          users := users[userId := users[userId].(referredBy := None)];
          replies := replies + [Message(me, InvalidReferral)];
        }
      }

      replies := replies + [Message(me, Welcome)];
    }
  }
}
