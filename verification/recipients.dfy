/**
 * Recipient selection for one post (`send_notifications` and
 * `get_user_email`): the feed's subscribers are read in the order the
 * preferences store lists them, and every subscriber whose
 * `emailNotification` flag is set contributes the email address from the
 * users record. One send goes out with all the addresses, and none when
 * there are none. A missing key anywhere raises, which ends the selection.
 */
module Recipients {
  import opened Wrappers

  /** One entry of the feed's preference map: the user and its `emailNotification` flag, absent when the key is missing. */
  datatype Subscriber = Subscriber(user: string, emailNotification: Option<bool>)

  /** The users record: absent altogether, or per user the email of its global preferences (absent when a key is missing). */
  type Users = Option<map<string, Option<string>>>

  /** Why a lookup raised. */
  datatype LookupError =
    | MissingFlag(user: string)    // the subscriber has no `emailNotification` key
    | NoUsers                      // the users record is absent
    | UnknownUser(user: string)    // the user is not in the users record
    | MissingEmail(user: string)   // the user's record has no email

  /** `get_user_email`. */
  function EmailOf(users: Users, user: string): (r: Result<string, LookupError>)
    ensures r.Ok? <==> users.Some? && user in users.value && users.value[user].Some?
    ensures r.Ok? ==> r.value == users.value[user].value
  {
    match users
    case None => Err(NoUsers)
    case Some(m) =>
      if user !in m then Err(UnknownUser(user))
      else match m[user]
        case None => Err(MissingEmail(user))
        case Some(email) => Ok(email)
  }

  /** The loop of `send_notifications`: the addresses of the enabled subscribers, in order, or the first error. */
  function Recipients(prefs: seq<Subscriber>, users: Users): Result<seq<string>, LookupError>
  {
    if prefs == [] then Ok([])
    else
      match Recipients(prefs[..|prefs| - 1], users)
      case Err(e) => Err(e)
      case Ok(emails) =>
        var s := prefs[|prefs| - 1];
        match s.emailNotification
        case None => Err(MissingFlag(s.user))
        case Some(enabled) =>
          if !enabled then Ok(emails)
          else match EmailOf(users, s.user)
            case Err(e) => Err(e)
            case Ok(email) => Ok(emails + [email])
  }

  /** The users who asked for email, in order. */
  function Enabled(prefs: seq<Subscriber>): (users: seq<string>)
    ensures |users| <= |prefs|
  {
    if prefs == [] then []
    else
      var s := prefs[|prefs| - 1];
      Enabled(prefs[..|prefs| - 1]) + (if s.emailNotification == Some(true) then [s.user] else [])
  }

  /** What goes wrong for one subscriber, if anything. */
  function Problem(s: Subscriber, users: Users): Option<LookupError>
  {
    match s.emailNotification
    case None => Some(MissingFlag(s.user))
    case Some(enabled) =>
      if enabled && EmailOf(users, s.user).Err? then Some(EmailOf(users, s.user).error) else None
  }

  /**
   * The selection succeeds exactly when no subscriber has a problem, and then
   * the recipients are the emails of the enabled users, one per enabled user
   * and in the same order, duplicates kept.
   */
  lemma {:induction false} RecipientsAreEnabledEmails(prefs: seq<Subscriber>, users: Users)
    ensures Recipients(prefs, users).Ok? <==> forall i :: 0 <= i < |prefs| ==> Problem(prefs[i], users).None?
    ensures Recipients(prefs, users).Ok? ==>
      var emails := Recipients(prefs, users).value;
      && |emails| == |Enabled(prefs)|
      && forall i :: 0 <= i < |emails| ==> EmailOf(users, Enabled(prefs)[i]) == Ok(emails[i])
  {
    if prefs != [] {
      var prefix, s := prefs[..|prefs| - 1], prefs[|prefs| - 1];
      RecipientsAreEnabledEmails(prefix, users);
      assert forall i :: 0 <= i < |prefix| ==> prefix[i] == prefs[i];
      if Recipients(prefs, users).Ok? {
        var emails := Recipients(prefs, users).value;
        var before := Recipients(prefix, users).value;
        if s.emailNotification == Some(true) {
          assert emails == before + [EmailOf(users, s.user).value];
          assert Enabled(prefs) == Enabled(prefix) + [s.user];
        } else {
          assert emails == before && Enabled(prefs) == Enabled(prefix);
        }
      }
    }
  }

  /** A failed selection reports the problem of the first subscriber that has one. */
  lemma {:induction false} RecipientsFirstProblem(prefs: seq<Subscriber>, users: Users)
    ensures Recipients(prefs, users).Err? ==>
      exists k :: 0 <= k < |prefs| && Problem(prefs[k], users) == Some(Recipients(prefs, users).error)
        && forall j :: 0 <= j < k ==> Problem(prefs[j], users).None?
  {
    if prefs != [] {
      var prefix := prefs[..|prefs| - 1];
      RecipientsFirstProblem(prefix, users);
      RecipientsAreEnabledEmails(prefix, users);
      assert forall i :: 0 <= i < |prefix| ==> prefix[i] == prefs[i];
      if Recipients(prefs, users).Err? && Recipients(prefix, users).Ok? {
        assert Problem(prefs[|prefs| - 1], users) == Some(Recipients(prefs, users).error);
      }
    }
  }

  /** Once a lookup has raised, the later subscribers are never looked at. */
  lemma {:induction false} RecipientsErrorSticks(prefs: seq<Subscriber>, users: Users, n: nat)
    requires n <= |prefs|
    requires Recipients(prefs[..n], users).Err?
    ensures Recipients(prefs, users) == Recipients(prefs[..n], users)
    decreases |prefs| - n
  {
    if n < |prefs| {
      assert prefs[..n + 1][..n] == prefs[..n];
      RecipientsErrorSticks(prefs, users, n + 1);
    } else {
      assert prefs[..n] == prefs;
    }
  }

  /** What `send_notifications` does with one post. */
  datatype Delivery =
    | NoSend                          // no preferences, or nobody to email
    | Send(addresses: seq<string>)    // one transport call with these recipients
    | Raised(error: LookupError)      // a lookup raised before anything was sent

  /** The outcome of `send_notifications`, given the feed's preferences (absent or empty when nobody subscribed). */
  function Notification(prefs: Option<seq<Subscriber>>, users: Users): Delivery
  {
    if prefs.None? || prefs.value == [] then NoSend
    else match Recipients(prefs.value, users)
      case Err(e) => Raised(e)
      case Ok(emails) => if emails == [] then NoSend else Send(emails)
  }

  /**
   * A send goes out exactly when there are preferences, no lookup raises and
   * at least one subscriber asked for email; it carries their addresses.
   */
  lemma NotificationRule(prefs: Option<seq<Subscriber>>, users: Users)
    ensures Notification(prefs, users).Send? <==>
      && prefs.Some?
      && (forall i :: 0 <= i < |prefs.value| ==> Problem(prefs.value[i], users).None?)
      && Enabled(prefs.value) != []
    ensures Notification(prefs, users).Send? ==>
      var emails := Notification(prefs, users).addresses;
      && |emails| == |Enabled(prefs.value)|
      && forall i :: 0 <= i < |emails| ==> EmailOf(users, Enabled(prefs.value)[i]) == Ok(emails[i])
    ensures prefs.None? ==> Notification(prefs, users) == NoSend
  {
    if prefs.Some? {
      RecipientsAreEnabledEmails(prefs.value, users);
    }
  }

  /** The loop of `send_notifications`, appending one address per enabled subscriber. */
  method CollectEmails(prefs: seq<Subscriber>, users: Users) returns (r: Result<seq<string>, LookupError>)
    ensures r == Recipients(prefs, users)
  {
    var emails: seq<string> := [];
    var i := 0;
    while i < |prefs|
      invariant 0 <= i <= |prefs|
      invariant Recipients(prefs[..i], users) == Ok(emails)
    {
      assert prefs[..i + 1][..i] == prefs[..i];
      var s := prefs[i];
      if s.emailNotification.None? {
        RecipientsErrorSticks(prefs, users, i + 1);
        return Err(MissingFlag(s.user));
      }
      if s.emailNotification.value {
        var email := EmailOf(users, s.user);
        if email.Err? {
          RecipientsErrorSticks(prefs, users, i + 1);
          return Err(email.error);
        }
        emails := emails + [email.value];
      }
      i := i + 1;
    }
    assert prefs[..i] == prefs;
    r := Ok(emails);
  }

  /** `send_notifications`. */
  method Notify(prefs: Option<seq<Subscriber>>, users: Users) returns (outcome: Delivery)
    ensures outcome == Notification(prefs, users)
  {
    if prefs.None? || prefs.value == [] {
      return NoSend;
    }
    var emails := CollectEmails(prefs.value, users);
    match emails {
      case Err(e) => outcome := Raised(e);
      case Ok(addresses) => outcome := if addresses == [] then NoSend else Send(addresses);
    }
  }
}
