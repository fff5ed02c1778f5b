/** The IAM access-key lifecycle of rotate-iam-keys/index.js: for one user,
    the keys are sorted newest first and each is deleted, replaced (with an
    expiry notice to the user's contact address) or left alone according to
    its age. Times are integers in milliseconds; `today` is an input. */
module RotateIamKeys {
  import opened Wrappers
  import Strings

  const DAY_MS := 24 * 60 * 60 * 1000
  const SIXTY_DAYS := 60 * DAY_MS
  const SIXTY_ONE_DAYS := 61 * DAY_MS
  const NINETY_DAYS := 90 * DAY_MS
  const CONTACT_EMAIL_TAG := "ised-contact-email"
  const NOTICE_SUBJECT := "IAM Key Expiry Notice"

  /** An element of `AccessKeyMetadata`; `createDate` in milliseconds. */
  datatype AccessKey = AccessKey(accessKeyId: string, createDate: int)

  /** The `AccessKey` returned by `createAccessKey`. */
  datatype NewAccessKey = NewAccessKey(accessKeyId: string, secretAccessKey: string)

  datatype Tag = Tag(key: string, value: string)

  /** The comparator handed to `keys.sort`: negative when `a` is newer, so
      that the newer key comes first. */
  function SortKeysByAscendingCreationDate(a: AccessKey, b: AccessKey): (r: int)
    ensures r == -1 <==> a.createDate > b.createDate
    ensures r == 1 <==> b.createDate > a.createDate
    ensures r == 0 <==> a.createDate == b.createDate
  {
    if a.createDate > b.createDate then -1
    else if b.createDate > a.createDate then 1
    else 0
  }

  /** The comparator is consistent: its sign flips with its arguments and it
      is transitive, as `Array.prototype.sort` requires. */
  lemma ComparatorIsConsistent(a: AccessKey, b: AccessKey, c: AccessKey)
    ensures SortKeysByAscendingCreationDate(a, b) == -SortKeysByAscendingCreationDate(b, a)
    ensures SortKeysByAscendingCreationDate(a, b) <= 0 && SortKeysByAscendingCreationDate(b, c) <= 0
      ==> SortKeysByAscendingCreationDate(a, c) <= 0
  {
  }

  /** Newest first: creation dates never increase along the sequence. */
  ghost predicate NewestFirst(keys: seq<AccessKey>)
  {
    forall p, q :: 0 <= p < q < |keys| ==> keys[p].createDate >= keys[q].createDate
  }

  /** Exchanges two neighbouring keys. */
  method SwapNeighbours(keys: array<AccessKey>, j: int)
    requires 0 < j < keys.Length
    modifies keys
    ensures keys[..] == old(keys[..])[j - 1 := old(keys[j])][j := old(keys[j - 1])]
    ensures multiset(keys[..]) == multiset(old(keys[..]))
  {
    keys[j - 1], keys[j] := keys[j], keys[j - 1];
  }

  /** One step of the insertion sort: moves `keys[i]` left past every older
      key, so that the first `i + 1` keys are newest first. */
  method InsertKey(keys: array<AccessKey>, i: int)
    requires 0 < i < keys.Length
    requires NewestFirst(keys[..i])
    modifies keys
    ensures NewestFirst(keys[..i + 1])
    ensures multiset(keys[..]) == multiset(old(keys[..]))
  {
    var j := i;
    while j > 0 && SortKeysByAscendingCreationDate(keys[j - 1], keys[j]) > 0
      invariant 0 <= j <= i
      invariant forall p, q :: 0 <= p < q <= i && p != j && q != j ==> keys[p].createDate >= keys[q].createDate
      invariant forall q :: j < q <= i ==> keys[j].createDate >= keys[q].createDate
      invariant multiset(keys[..]) == multiset(old(keys[..]))
    {
      SwapNeighbours(keys, j);
      j := j - 1;
    }
  }

  /** `keys.sort(sortKeysByAscendingCreationDate)`: an insertion sort that puts
      the newest key first. */
  method SortKeys(keys: array<AccessKey>)
    modifies keys
    ensures NewestFirst(keys[..])
    ensures multiset(keys[..]) == multiset(old(keys[..]))
  {
    if keys.Length == 0 {
      return;
    }
    var i := 1;
    while i < keys.Length
      invariant 1 <= i <= keys.Length
      invariant NewestFirst(keys[..i])
      invariant multiset(keys[..]) == multiset(old(keys[..]))
    {
      InsertKey(keys, i);
      i := i + 1;
    }
    assert keys[..i] == keys[..];
  }

  datatype Age = Expired | DueForRotation | Current

  /** The age class of a key created at `createDate`, seen on `today`. */
  function Classify(today: int, createDate: int): (r: Age)
    ensures r == Expired <==> today - createDate >= NINETY_DAYS
    ensures r == DueForRotation <==> SIXTY_DAYS <= today - createDate < SIXTY_ONE_DAYS
    ensures r == Current <==> (today - createDate < SIXTY_DAYS
      || SIXTY_ONE_DAYS <= today - createDate < NINETY_DAYS)
  {
    var age := today - createDate;
    if age >= NINETY_DAYS then Expired
    else if age >= SIXTY_DAYS && age < SIXTY_ONE_DAYS then DueForRotation
    else Current
  }

  /** What the handler sets off for one key of one user. */
  datatype KeyAction =
    | DeleteAccessKey(userName: string, accessKeyId: string)
    | CreateAccessKey(userName: string, oldKey: AccessKey)
    | NotDue(accessKeyId: string)

  /** The branch of the per-key loop a key takes: deleted once expired,
      replaced on the day it is due, otherwise left alone. */
  function ActionFor(userName: string, key: AccessKey, today: int): (r: KeyAction)
    ensures r.DeleteAccessKey? <==> today - key.createDate >= NINETY_DAYS
    ensures r.CreateAccessKey? <==> SIXTY_DAYS <= today - key.createDate < SIXTY_ONE_DAYS
    ensures r.DeleteAccessKey? ==> r.userName == userName && r.accessKeyId == key.accessKeyId
    ensures r.CreateAccessKey? ==> r.userName == userName && r.oldKey == key
    ensures r.NotDue? ==> r.accessKeyId == key.accessKeyId
  {
    match Classify(today, key.createDate)
    case Expired => DeleteAccessKey(userName, key.accessKeyId)
    case DueForRotation => CreateAccessKey(userName, key)
    case Current => NotDue(key.accessKeyId)
  }

  /** The loop over a user's (sorted) keys: one action per key, in order. */
  method PlanKeyActions(userName: string, keys: seq<AccessKey>, today: int) returns (actions: seq<KeyAction>)
    ensures |actions| == |keys|
    ensures forall i :: 0 <= i < |keys| ==> actions[i] == ActionFor(userName, keys[i], today)
    ensures forall i :: 0 <= i < |keys| ==>
      (actions[i].DeleteAccessKey? <==> today - keys[i].createDate >= NINETY_DAYS)
    ensures forall i :: 0 <= i < |keys| ==>
      (actions[i].CreateAccessKey? <==> SIXTY_DAYS <= today - keys[i].createDate < SIXTY_ONE_DAYS)
  {
    actions := [];
    var i := 0;
    while i < |keys|
      invariant 0 <= i <= |keys|
      invariant |actions| == i
      invariant forall k :: 0 <= k < i ==> actions[k] == ActionFor(userName, keys[k], today)
    {
      var key := keys[i];
      var action;
      if today - key.createDate >= NINETY_DAYS {
        action := DeleteAccessKey(userName, key.accessKeyId);
      } else if today - key.createDate >= SIXTY_DAYS && today - key.createDate < SIXTY_ONE_DAYS {
        action := CreateAccessKey(userName, key);
      } else {
        action := NotDue(key.accessKeyId);
      }
      actions := actions + [action];
      i := i + 1;
    }
  }

  datatype UserOutcome = ListKeysFailed(error: string, message: string) | Planned(actions: seq<KeyAction>)

  /** The `listAccessKeys` callback for one user: report the listing error,
      do nothing for a user without keys, else sort and plan. */
  method ProcessUser(userName: string, listError: Option<string>, keys: array<AccessKey>, today: int)
    returns (outcome: UserOutcome)
    modifies keys
    ensures listError.Some? ==> outcome == ListKeysFailed(listError.value, "Failed to list keys") && keys[..] == old(keys[..])
    ensures listError.None? ==> outcome.Planned?
    ensures listError.None? && keys.Length == 0 ==> outcome.actions == []
    ensures listError.None? ==> NewestFirst(keys[..]) && multiset(keys[..]) == multiset(old(keys[..]))
    ensures outcome.Planned? ==> (|outcome.actions| == keys.Length
      && forall i :: 0 <= i < keys.Length ==> outcome.actions[i] == ActionFor(userName, keys[i], today))
  {
    if listError.Some? {
      return ListKeysFailed(listError.value, "Failed to list keys");
    }
    if keys.Length == 0 {
      return Planned([]);
    }
    SortKeys(keys);
    var actions := PlanKeyActions(userName, keys[..], today);
    outcome := Planned(actions);
  }

  /** The value of the first tag keyed `ised-contact-email`, or "". */
  function ContactEmail(tags: seq<Tag>): (r: string)
    ensures (exists i :: 0 <= i < |tags| && tags[i].key == CONTACT_EMAIL_TAG) ==>
      (exists i :: 0 <= i < |tags| && tags[i].key == CONTACT_EMAIL_TAG && r == tags[i].value
        && forall j :: 0 <= j < i ==> tags[j].key != CONTACT_EMAIL_TAG)
    ensures (forall i :: 0 <= i < |tags| ==> tags[i].key != CONTACT_EMAIL_TAG) ==> r == ""
  {
    if |tags| == 0 then ""
    else if tags[0].key == CONTACT_EMAIL_TAG then tags[0].value
    else
      var r := ContactEmail(tags[1..]);
      assert forall i :: 1 <= i < |tags| ==> tags[i] == tags[1..][i - 1];
      r
  }

  /** The tag loop of `notifyUser`, which stops at the first match. */
  method FindContactEmail(tags: seq<Tag>) returns (email: string)
    ensures email == ContactEmail(tags)
  {
    email := "";
    var i := 0;
    while i < |tags|
      invariant 0 <= i <= |tags|
      invariant email == ""
      invariant ContactEmail(tags) == ContactEmail(tags[i..])
    {
      if tags[i].key == CONTACT_EMAIL_TAG {
        email := tags[i].value;
        break;
      }
      assert tags[i..][1..] == tags[i + 1..];
      i := i + 1;
    }
  }

  /** The body of the expiry notice. */
  function ExpiryNotice(oldKey: AccessKey, newKey: NewAccessKey): string
  {
    "The IAM key " + oldKey.accessKeyId + " will expire in 30 days.\nReplace it with the following information:\n\nID: "
    + newKey.accessKeyId + "\nSecret: " + newKey.secretAccessKey
  }

  /** The notice names the old key, the new key and the new secret. */
  lemma ExpiryNoticeMentionsKeys(oldKey: AccessKey, newKey: NewAccessKey)
    ensures Strings.Contains(ExpiryNotice(oldKey, newKey), oldKey.accessKeyId)
    ensures Strings.Contains(ExpiryNotice(oldKey, newKey), newKey.accessKeyId)
    ensures Strings.Contains(ExpiryNotice(oldKey, newKey), newKey.secretAccessKey)
  {
    var notice := ExpiryNotice(oldKey, newKey);
    var head := "The IAM key ";
    var middle := " will expire in 30 days.\nReplace it with the following information:\n\nID: ";
    var tail := "\nSecret: ";
    var p1 := |head|;
    var p2 := p1 + |oldKey.accessKeyId| + |middle|;
    var p3 := p2 + |newKey.accessKeyId| + |tail|;
    assert notice == head + oldKey.accessKeyId + middle + newKey.accessKeyId + tail + newKey.secretAccessKey;
    assert notice[p1..p1 + |oldKey.accessKeyId|] == oldKey.accessKeyId;
    assert Strings.OccursAt(notice, oldKey.accessKeyId, p1);
    assert notice[p2..p2 + |newKey.accessKeyId|] == newKey.accessKeyId;
    assert Strings.OccursAt(notice, newKey.accessKeyId, p2);
    assert notice[p3..] == newKey.secretAccessKey;
    assert Strings.OccursAt(notice, newKey.secretAccessKey, p3);
  }

  /** The `sendEmail` parameters. */
  datatype EmailRequest = EmailRequest(toAddress: string, subject: string, body: string, source: string)

  datatype NotifyOutcome = GetUserFailed(error: string, message: string) | NoContactEmail | SendEmail(request: EmailRequest)

  /** `notifyUser`, given the answer of `getUser` (the user's tags) and the
      sender address of the event. */
  method NotifyUser(userName: string, user: Result<seq<Tag>, string>, newKey: NewAccessKey, oldKey: AccessKey, fromEmail: string)
    returns (outcome: NotifyOutcome)
    ensures user.Failure? ==> outcome == GetUserFailed(user.error, "Failed to get user details: " + userName)
    ensures user.Success? ==> (outcome.SendEmail? <==> ContactEmail(user.value) != "")
    ensures user.Success? && ContactEmail(user.value) == "" ==> outcome == NoContactEmail
    ensures outcome.SendEmail? ==> (outcome.request ==
      EmailRequest(ContactEmail(user.value), NOTICE_SUBJECT, ExpiryNotice(oldKey, newKey), fromEmail))
  {
    if user.Failure? {
      return GetUserFailed(user.error, "Failed to get user details: " + userName);
    }
    var email := FindContactEmail(user.value);
    var message := ExpiryNotice(oldKey, newKey);
    if email != "" {
      outcome := SendEmail(EmailRequest(email, NOTICE_SUBJECT, message, fromEmail));
    } else {
      outcome := NoContactEmail;
    }
  }
}
