/** Telegram notifications: `SendToChat` refuses the zero chat id, and `SendToUser`
    picks the user's chat id, else the Telegram id, else fails. The bot API call is
    a parameter that answers with the error it raises, if any. */
module Notifications {
  import opened Base
  import opened Users
  import opened InitData
  import opened Auth

  datatype Message = Message(chatId: int64, text: string)

  datatype NotifyError =
    | EmptyChatId
    | NoChatId(userId: nat)
    | UserNotFound
    | LookupFailed(cause: StoreError)
    | BotFailed(reason: string)

  /** What one call hands to the bot, if anything, and the error it returns. */
  datatype Delivery = Delivery(sent: Option<Message>, error: Option<NotifyError>)

  /** `SendToChat`: chat id 0 is an error and nothing is sent; otherwise the message
      goes to that chat and the bot's error, if any, is returned. */
  function SendToChat(chatId: int64, text: string, bot: Message -> Option<string>): (d: Delivery)
    ensures d.sent.Some? <==> chatId != 0
    ensures d.sent.Some? ==> d.sent.value == Message(chatId, text) &&
                             (d.error.None? <==> bot(Message(chatId, text)).None?)
    ensures chatId == 0 ==> d.error == Some(EmptyChatId)
  {
    if chatId == 0 then Delivery(None, Some(EmptyChatId))
    else
      var msg := Message(chatId, text);
      match bot(msg)
      case None => Delivery(Some(msg), None)
      case Some(reason) => Delivery(Some(msg), Some(BotFailed(reason)))
  }

  /** The chat a user is notified in: the chat id when it is set, else the Telegram id. */
  function Target(u: User): (r: Option<int64>)
    ensures u.telegramChatId.Some? ==> r == u.telegramChatId
    ensures u.telegramChatId.None? ==> r == u.telegramId
  {
    if u.telegramChatId.Some? then u.telegramChatId else u.telegramId
  }

  /** `SendToUser` over a snapshot of the users; `fault` is the store's error. */
  function SendToUser(rows: seq<User>, userId: nat, text: string, fault: Option<StoreError>, bot: Message -> Option<string>)
    : (d: Delivery)
    ensures fault.Some? ==> d == Delivery(None, Some(LookupFailed(fault.value)))
    ensures fault.None? && FindByID(rows, userId).None? ==> d == Delivery(None, Some(UserNotFound))
    ensures d.sent.Some? ==> fault.None? && FindByID(rows, userId).Some? &&
                             Target(FindByID(rows, userId).value) == Some(d.sent.value.chatId) &&
                             d.sent.value == Message(d.sent.value.chatId, text) && d.sent.value.chatId != 0
  {
    match LookupOf(FindByID(rows, userId), fault)
    case Failed(e) => Delivery(None, Some(LookupFailed(e)))
    case NotFound => Delivery(None, Some(UserNotFound))
    case Found(user) =>
      if user.telegramChatId.Some? then SendToChat(user.telegramChatId.value, text, bot)
      else if user.telegramId.Some? then SendToChat(user.telegramId.value, text, bot)
      else Delivery(None, Some(NoChatId(userId)))
  }

  /** A failed lookup sends nothing and reports the error; a user is messaged at
      its target, and a user with neither id is an error. Nothing is ever sent to
      chat 0. */
  lemma SendToUserTargets(rows: seq<User>, userId: nat, text: string, fault: Option<StoreError>, bot: Message -> Option<string>)
    requires IdsArePositions(rows)
    ensures var d := SendToUser(rows, userId, text, fault, bot);
            (fault.Some? ==> d == Delivery(None, Some(LookupFailed(fault.value)))) &&
            (fault.None? && !(1 <= userId <= |rows|) ==> d == Delivery(None, Some(UserNotFound))) &&
            (fault.None? && 1 <= userId <= |rows| ==>
               (Target(rows[userId - 1]).None? ==> d == Delivery(None, Some(NoChatId(userId)))) &&
               (Target(rows[userId - 1]).Some? ==> d == SendToChat(Target(rows[userId - 1]).value, text, bot))) &&
            (d.sent.Some? ==> d.sent.value.chatId != 0 && d.sent.value.text == text)
  {
    FindByIDIsPosition(rows, userId);
  }

  /** A set chat id is used even when it is 0: the Telegram id is no fallback then. */
  lemma ZeroChatIdHasNoFallback(text: string, bot: Message -> Option<string>)
    ensures var u := User(1, Some(42), Some(0), None, None, None);
            SendToUser([u], 1, text, None, bot) == Delivery(None, Some(EmptyChatId))
  {
    FindByIDIsPosition([User(1, Some(42), Some(0), None, None, None)], 1);
  }

  /** Every stored chat id is the user's Telegram id, which is how
      `LoginWithTelegram` sets it. */
  predicate ChatIdsAreTelegramIds(rows: seq<User>) {
    forall i | 0 <= i < |rows| :: rows[i].telegramChatId.Some? ==> rows[i].telegramChatId == rows[i].telegramId
  }

  /** Telegram logins keep every chat id equal to the Telegram id. */
  lemma TelegramLoginKeepsChatIds(s: State, verified: Result<int64, VerifyError>, faults: TelegramFaults, now: int64, secret: string, env: Env)
    requires WellFormed(s.users) && ChatIdsAreTelegramIds(s.users)
    ensures ChatIdsAreTelegramIds(TelegramLogin(s, verified, faults, now, secret, env).1.users)
  {
    if verified.Ok? && faults.lookup.None? {
      var found := FindByTelegramID(s.users, verified.value);
      if found.Some? {
        var i :| 0 <= i < |s.users| && s.users[i] == found.value;
        assert found.value.id == i + 1;
      }
    }
  }

  /** After a successful Telegram login, notifying that account reaches the Telegram
      id it logged in with, whether or not the chat id backfill was stored. */
  lemma {:induction false} LoggedInUserIsNotifiedAtTelegramId(s: State, tid: int64, faults: TelegramFaults, now: int64, secret: string, env: Env,
                                                             text: string, bot: Message -> Option<string>)
    requires WellFormed(s.users) && ChatIdsAreTelegramIds(s.users)
    requires TelegramLogin(s, Ok(tid), faults, now, secret, env).0.Ok?
    ensures var (r, s') := TelegramLogin(s, Ok(tid), faults, now, secret, env);
            SendToUser(s'.users, r.value.user.id, text, None, bot) == SendToChat(tid, text, bot)
  {
    var (r, s') := TelegramLogin(s, Ok(tid), faults, now, secret, env);
    TelegramLoginLeavesAccount(s, tid, faults, now, secret, env);
    TelegramLoginKeepsChatIds(s, Ok(tid), faults, now, secret, env);
    TelegramLoginPreservesWellFormed(s, Ok(tid), faults, now, secret, env);
    SendToUserTargets(s'.users, r.value.user.id, text, None, bot);
  }
}
