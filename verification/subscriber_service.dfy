/** `SubscriberService`: the subscriber aggregate is one content-store entry
    whose `user_details` list holds optional user records. Adding a subscriber
    reads the entry, refuses a known email, appends the new user and writes
    the whole list back with an `all_users` summary; filtering reads the
    entry and keeps the users whose stored moods match a movie's tags. The
    store's answers are parameters. */
module SubscriberService {
  import opened Wrappers
  import opened Text
  import opened Seqs
  import opened IsoDates
  import MoodMapper

  /** A stored user; a key the record lacks is None. */
  datatype User = User(name: Option<string>, email: Option<string>, preferredMoods: Option<string>,
                       subscribedDate: Option<string>)

  /** One block of `user_details`; a block may lack its "user" object. */
  datatype UserBlock = UserBlock(user: Option<User>)

  /** A user as written back: every field present, "" where it was missing. */
  datatype WrittenUser = WrittenUser(name: string, email: string, preferredMoods: string, subscribedDate: string)

  datatype WrittenBlock = WrittenBlock(user: Option<WrittenUser>)

  /** The `entry` object of the update request. */
  datatype UpdatePayload = UpdatePayload(title: string, userDetails: seq<WrittenBlock>, allUsers: string)

  /** The store's answer to the fetch: a failed response, an exception, or
      the entry's `user_details` (None when the key is absent). */
  datatype FetchOutcome = FetchFailed | FetchThrew(message: Option<string>) | Fetched(userDetails: Option<seq<UserBlock>>)

  /** The store's answer to the update request. */
  datatype UpdateOutcome = UpdateAccepted | UpdateRejected | UpdateThrew(message: Option<string>)

  /** How `addSubscriber` ends: a returned boolean or a RuntimeException. */
  datatype AddOutcome = Returned(success: bool) | Threw(message: Option<string>)

  /** The outcome, and the update request when one was sent. */
  datatype AddResult = AddResult(outcome: AddOutcome, update: Option<UpdatePayload>)

  const DuplicateMessage := "This email is already subscribed!"
  const EntryTitle := "Subscribers"

  // ---------------------------------------------------------------------
  // The duplicate check

  /** The stored email of block `i` equals `email`, ignoring ASCII case. */
  predicate EmailAt(details: seq<UserBlock>, i: nat, email: string)
    requires i < |details|
  {
    details[i].user.Some? && details[i].user.value.email.Some?
    && EqualsIgnoreCase(details[i].user.value.email.value, email)
  }

  predicate IsSubscribed(details: seq<UserBlock>, email: string) {
    exists i :: 0 <= i < |details| && EmailAt(details, i, email)
  }

  /** The scan of `user_details` for the email, stopping at the first hit. */
  method FindSubscribed(details: seq<UserBlock>, email: string) returns (found: bool, at: nat)
    ensures found <==> IsSubscribed(details, email)
    ensures found ==> at < |details| && EmailAt(details, at, email)
    ensures found ==> forall j :: 0 <= j < at ==> !EmailAt(details, j, email)
  {
    var i := 0;
    while i < |details|
      invariant i <= |details|
      invariant forall j :: 0 <= j < i ==> !EmailAt(details, j, email)
    {
      if EmailAt(details, i, email) {
        return true, i;
      }
      i := i + 1;
    }
    return false, 0;
  }

  // ---------------------------------------------------------------------
  // The written payload

  /** `optString`: a missing value reads as "". */
  function OptString(s: Option<string>): string {
    s.GetOr("")
  }

  /** Every field copied, a missing one written as "". */
  function WriteUser(u: User): (r: WrittenUser)
    ensures u.name.Some? ==> r.name == u.name.value
    ensures u.name.None? ==> r.name == ""
    ensures u.email.Some? ==> r.email == u.email.value
    ensures u.email.None? ==> r.email == ""
    ensures u.preferredMoods.Some? ==> r.preferredMoods == u.preferredMoods.value
    ensures u.preferredMoods.None? ==> r.preferredMoods == ""
    ensures u.subscribedDate.Some? ==> r.subscribedDate == u.subscribedDate.value
    ensures u.subscribedDate.None? ==> r.subscribedDate == ""
  {
    WrittenUser(OptString(u.name), OptString(u.email), OptString(u.preferredMoods), OptString(u.subscribedDate))
  }

  /** A block without a user is written as an empty block. */
  function WriteBlock(b: UserBlock): (r: WrittenBlock)
    ensures r.user.None? <==> b.user.None?
  {
    if b.user.Some? then WrittenBlock(Some(WriteUser(b.user.value))) else WrittenBlock(None)
  }

  /** The new user's block: the moods joined with ", " and today's date. */
  function NewUserBlock(name: string, email: string, moods: seq<string>, today: Date): (r: UserBlock)
    requires ValidDate(today)
    ensures r.user.Some? && r.user.value.email == Some(email)
    ensures r.user.value.preferredMoods == Some(Join(", ", moods))
    ensures r.user.value.subscribedDate.Some? && |r.user.value.subscribedDate.value| >= 10
    ensures ParseIsoDate(r.user.value.subscribedDate.value) == today
  {
    IsoDateRoundTrip(today);
    UserBlock(Some(User(Some(name), Some(email), Some(Join(", ", moods)), Some(FormatIsoDate(today)))))
  }

  /** The email contribution of block `i` to `all_users`: ", " before it
      whenever the block is not the first, whether or not an earlier block
      contributed anything. */
  function EmailPiece(blocks: seq<WrittenBlock>, i: nat): string
    requires i < |blocks|
  {
    if blocks[i].user.None? then ""
    else (if i > 0 then ", " else "") + blocks[i].user.value.email
  }

  /** The `all_users` text built from the first `n` blocks. */
  function AllUsersOf(blocks: seq<WrittenBlock>, n: nat): string
    requires n <= |blocks|
  {
    if n == 0 then "" else AllUsersOf(blocks, n - 1) + EmailPiece(blocks, n - 1)
  }

  /** The loop that converts the blocks and gathers the emails. */
  method WriteDetails(details: seq<UserBlock>) returns (written: seq<WrittenBlock>, allUsers: string)
    ensures |written| == |details|
    ensures forall i :: 0 <= i < |details| ==> written[i] == WriteBlock(details[i])
    ensures allUsers == AllUsersOf(written, |written|)
  {
    written := [];
    allUsers := "";
    var i := 0;
    while i < |details|
      invariant i <= |details| && |written| == i
      invariant forall j :: 0 <= j < i ==> written[j] == WriteBlock(details[j])
      invariant allUsers == AllUsersOf(written, i)
    {
      var block := WriteBlock(details[i]);
      var before := written;
      written := written + [block];
      assert forall j :: 0 <= j < i ==> written[j] == before[j];
      AllUsersPrefix(before, written, i);
      if block.user.Some? {
        if i > 0 {
          allUsers := allUsers + ", ";
        }
        allUsers := allUsers + block.user.value.email;
      }
      i := i + 1;
    }
  }

  /** `AllUsersOf` reads only the first `n` blocks. */
  lemma {:induction false} AllUsersPrefix(a: seq<WrittenBlock>, b: seq<WrittenBlock>, n: nat)
    requires n <= |a| && n <= |b| && a[..n] == b[..n]
    ensures AllUsersOf(a, n) == AllUsersOf(b, n)
  {
    if n > 0 {
      assert a[n - 1] == a[..n][n - 1] == b[..n][n - 1] == b[n - 1];
      assert a[..n - 1] == a[..n][..n - 1];
      assert b[..n - 1] == b[..n][..n - 1];
      AllUsersPrefix(a, b, n - 1);
    }
  }

  function Emails(blocks: seq<WrittenBlock>): seq<string>
    requires forall i :: 0 <= i < |blocks| ==> blocks[i].user.Some?
  {
    seq(|blocks|, i requires 0 <= i < |blocks| => blocks[i].user.value.email)
  }

  /** When every block has a user, `all_users` is the ", "-join of the emails
      in order. */
  lemma {:induction false} AllUsersIsJoin(blocks: seq<WrittenBlock>, n: nat)
    requires n <= |blocks|
    requires forall i :: 0 <= i < |blocks| ==> blocks[i].user.Some?
    ensures AllUsersOf(blocks, n) == Join(", ", Emails(blocks[..n]))
  {
    if n > 1 {
      AllUsersIsJoin(blocks, n - 1);
      assert Emails(blocks[..n]) == Emails(blocks[..n - 1]) + [blocks[n - 1].user.value.email];
      JoinAppend(", ", Emails(blocks[..n - 1]), blocks[n - 1].user.value.email);
    } else if n == 1 {
      assert Emails(blocks[..1]) == [blocks[0].user.value.email];
    }
  }

  /** When the first block has no user, `all_users` starts with ", ". */
  lemma LeadingSeparator(email: string)
    ensures AllUsersOf([WrittenBlock(None), WrittenBlock(Some(WrittenUser("", email, "", "")))], 2) == ", " + email
  {
    var blocks := [WrittenBlock(None), WrittenBlock(Some(WrittenUser("", email, "", "")))];
    assert AllUsersOf(blocks, 1) == "";
    assert EmailPiece(blocks, 1) == ", " + email;
  }

  /** The update sent for the fetched list plus the new block. */
  function Payload(details: seq<UserBlock>): (p: UpdatePayload)
    ensures p.title == EntryTitle && |p.userDetails| == |details|
    ensures forall i :: 0 <= i < |details| ==> p.userDetails[i] == WriteBlock(details[i])
    ensures p.allUsers == AllUsersOf(p.userDetails, |details|)
  {
    var written := seq(|details|, i requires 0 <= i < |details| => WriteBlock(details[i]));
    UpdatePayload(EntryTitle, written, AllUsersOf(written, |written|))
  }

  // ---------------------------------------------------------------------
  // addSubscriber

  /** `addSubscriber`: a failed fetch returns false; a known email, or any
      exception, ends in a RuntimeException carrying its message; otherwise
      the update is sent and its answer decides the result. */
  function AddSubscriber(name: string, email: string, moods: seq<string>, today: Date,
                         fetch: FetchOutcome, update: UpdateOutcome): (r: AddResult)
    requires ValidDate(today)
    ensures fetch.FetchFailed? ==> r == AddResult(Returned(false), None)
    ensures fetch.FetchThrew? ==> r == AddResult(Threw(fetch.message), None)
    ensures fetch.Fetched? && IsSubscribed(fetch.userDetails.GetOr([]), email) ==>
      r == AddResult(Threw(Some(DuplicateMessage)), None)
    ensures r.update.Some? <==> fetch.Fetched? && !IsSubscribed(fetch.userDetails.GetOr([]), email)
    ensures r.update.Some? ==>
      r.update.value == Payload(fetch.userDetails.GetOr([]) + [NewUserBlock(name, email, moods, today)])
    ensures r.update.Some? ==>
      r.outcome == match update
        case UpdateAccepted => Returned(true)
        case UpdateRejected => Returned(false)
        case UpdateThrew(m) => Threw(m)
  {
    match fetch
    case FetchFailed => AddResult(Returned(false), None)
    case FetchThrew(m) => AddResult(Threw(m), None)
    case Fetched(stored) =>
      var details := stored.GetOr([]);
      if IsSubscribed(details, email) then AddResult(Threw(Some(DuplicateMessage)), None)
      else
        var payload := Payload(details + [NewUserBlock(name, email, moods, today)]);
        var outcome := match update
          case UpdateAccepted => Returned(true)
          case UpdateRejected => Returned(false)
          case UpdateThrew(m) => Threw(m);
        AddResult(outcome, Some(payload))
  }

  /** The written list keeps the old blocks in order and ends with the new
      user, whose stored moods are the joined list and whose date reads back
      as today. */
  lemma AddedUserIsLast(name: string, email: string, moods: seq<string>, today: Date,
                        details: seq<UserBlock>, update: UpdateOutcome)
    requires ValidDate(today)
    requires !IsSubscribed(details, email)
    ensures var p := AddSubscriber(name, email, moods, today, Fetched(Some(details)), update).update.value;
      && |p.userDetails| == |details| + 1
      && (forall i :: 0 <= i < |details| ==> p.userDetails[i] == WriteBlock(details[i]))
      && p.userDetails[|details|].user.Some?
      && p.userDetails[|details|].user.value.name == name
      && p.userDetails[|details|].user.value.email == email
      && p.userDetails[|details|].user.value.preferredMoods == Join(", ", moods)
      && ParseIsoDate(p.userDetails[|details|].user.value.subscribedDate) == today
  {
    var all := details + [NewUserBlock(name, email, moods, today)];
    assert all[|details|] == NewUserBlock(name, email, moods, today);
    assert forall i :: 0 <= i < |details| ==> all[i] == details[i];
  }

  /** A missing `user_details` counts as an empty list: the new user is the
      only one, and `all_users` is just the email. */
  lemma FirstSubscriber(name: string, email: string, moods: seq<string>, today: Date, update: UpdateOutcome)
    requires ValidDate(today)
    ensures var r := AddSubscriber(name, email, moods, today, Fetched(None), update);
      && r == AddSubscriber(name, email, moods, today, Fetched(Some([])), update)
      && r.update.Some?
      && |r.update.value.userDetails| == 1
      && r.update.value.allUsers == email
  {
    var nb := NewUserBlock(name, email, moods, today);
    assert [] + [nb] == [nb];
    var p := Payload([nb]);
    assert p.allUsers == AllUsersOf(p.userDetails, 1) == EmailPiece(p.userDetails, 0);
  }

  /** When every stored block has a user, `all_users` lists every email,
      the new one last, separated by ", ". */
  lemma AllUsersAfterAdd(name: string, email: string, moods: seq<string>, today: Date,
                         details: seq<UserBlock>, update: UpdateOutcome)
    requires ValidDate(today)
    requires !IsSubscribed(details, email)
    requires forall i :: 0 <= i < |details| ==> details[i].user.Some?
    ensures var p := AddSubscriber(name, email, moods, today, Fetched(Some(details)), update).update.value;
      p.allUsers == Join(", ", Emails(p.userDetails))
  {
    var all := details + [NewUserBlock(name, email, moods, today)];
    assert AddSubscriber(name, email, moods, today, Fetched(Some(details)), update).update == Some(Payload(all));
    PayloadAllUsersIsJoin(all);
  }

  /** When every block has a user, the payload's `all_users` is the
      ", "-join of its emails. */
  lemma PayloadAllUsersIsJoin(all: seq<UserBlock>)
    requires forall i :: 0 <= i < |all| ==> all[i].user.Some?
    ensures Payload(all).allUsers == Join(", ", Emails(Payload(all).userDetails))
  {
    var p := Payload(all);
    assert forall i :: 0 <= i < |p.userDetails| ==> p.userDetails[i].user.Some? by {
      forall i | 0 <= i < |p.userDetails|
        ensures p.userDetails[i].user.Some?
      {
        assert p.userDetails[i] == WriteBlock(all[i]);
      }
    }
    AllUsersIsJoin(p.userDetails, |p.userDetails|);
    assert p.userDetails[..|p.userDetails|] == p.userDetails;
  }

  /** What the store holds after the update is accepted, read back. */
  function ReadBack(p: UpdatePayload): (r: seq<UserBlock>)
    ensures |r| == |p.userDetails|
  {
    seq(|p.userDetails|, i requires 0 <= i < |p.userDetails| =>
      if p.userDetails[i].user.None? then UserBlock(None)
      else
        var u := p.userDetails[i].user.value;
        UserBlock(Some(User(Some(u.name), Some(u.email), Some(u.preferredMoods), Some(u.subscribedDate)))))
  }

  /** A stored user with every field present. */
  predicate Complete(b: UserBlock) {
    b.user.Some? ==>
      b.user.value.name.Some? && b.user.value.email.Some?
      && b.user.value.preferredMoods.Some? && b.user.value.subscribedDate.Some?
  }

  /** Writing a list of complete blocks and reading it back gives the list
      itself: the rewrite loses nothing. */
  lemma WriteReadBack(details: seq<UserBlock>)
    requires forall i :: 0 <= i < |details| ==> Complete(details[i])
    ensures ReadBack(Payload(details)) == details
  {
    var back := ReadBack(Payload(details));
    forall i | 0 <= i < |details|
      ensures back[i] == details[i]
    {
      if details[i].user.Some? {
        var u := details[i].user.value;
        assert WriteBlock(details[i]) == WrittenBlock(Some(WriteUser(u)));
      }
    }
  }

  /** Once added, the same email, in any ASCII case, is refused. */
  lemma AddThenDuplicate(name: string, email: string, again: string, moods: seq<string>, today: Date,
                         details: seq<UserBlock>, other: string, otherMoods: seq<string>)
    requires ValidDate(today)
    requires !IsSubscribed(details, email)
    requires EqualsIgnoreCase(email, again)
    ensures var p := AddSubscriber(name, email, moods, today, Fetched(Some(details)), UpdateAccepted).update.value;
      AddSubscriber(other, again, otherMoods, today, Fetched(Some(ReadBack(p))), UpdateAccepted)
        == AddResult(Threw(Some(DuplicateMessage)), None)
  {
    var p := AddSubscriber(name, email, moods, today, Fetched(Some(details)), UpdateAccepted).update.value;
    AddedUserIsLast(name, email, moods, today, details, UpdateAccepted);
    assert EmailAt(ReadBack(p), |details|, again);
  }

  /** No two stored users share an email, ignoring ASCII case. */
  predicate UniqueEmails(details: seq<UserBlock>) {
    forall i, j :: 0 <= i < j < |details| && details[i].user.Some? && details[i].user.value.email.Some? ==>
      !EmailAt(details, j, details[i].user.value.email.value)
  }

  /** Adding keeps the emails unique: the written list, read back, has no
      duplicate when the fetched list had none. */
  lemma AddKeepsEmailsUnique(name: string, email: string, moods: seq<string>, today: Date,
                             details: seq<UserBlock>)
    requires ValidDate(today)
    requires UniqueEmails(details)
    requires forall i :: 0 <= i < |details| ==> details[i].user.Some? ==> details[i].user.value.email.Some?
    requires !IsSubscribed(details, email)
    ensures var p := AddSubscriber(name, email, moods, today, Fetched(Some(details)), UpdateAccepted).update.value;
      UniqueEmails(ReadBack(p))
  {
    var p := AddSubscriber(name, email, moods, today, Fetched(Some(details)), UpdateAccepted).update.value;
    ReadBackAfterAdd(name, email, moods, today, details);
    var back := ReadBack(p);
    forall i, j | 0 <= i < j < |back| && back[i].user.Some? && back[i].user.value.email.Some?
      ensures !EmailAt(back, j, back[i].user.value.email.value)
    {
      var e := back[i].user.value.email.value;
      assert e == details[i].user.value.email.value;
      if j < |details| {
        assert !EmailAt(details, j, e);
      } else {
        assert !EmailAt(details, i, email);
      }
    }
  }

  /** The stored list after an accepted add, block by block. */
  lemma ReadBackAfterAdd(name: string, email: string, moods: seq<string>, today: Date, details: seq<UserBlock>)
    requires ValidDate(today)
    requires !IsSubscribed(details, email)
    ensures var back := ReadBack(AddSubscriber(name, email, moods, today, Fetched(Some(details)), UpdateAccepted).update.value);
      && |back| == |details| + 1
      && (forall i :: 0 <= i < |details| ==> (back[i].user.Some? <==> details[i].user.Some?))
      && (forall i :: 0 <= i < |details| && details[i].user.Some? ==>
            && back[i].user.value.name == Some(OptString(details[i].user.value.name))
            && back[i].user.value.email == Some(OptString(details[i].user.value.email))
            && back[i].user.value.preferredMoods == Some(OptString(details[i].user.value.preferredMoods))
            && back[i].user.value.subscribedDate == Some(OptString(details[i].user.value.subscribedDate)))
      && (forall i :: 0 <= i < |details| && Complete(details[i]) ==> back[i] == details[i])
      && back[|details|].user.Some? && back[|details|].user.value.email == Some(email)
  {
    AddedUserIsLast(name, email, moods, today, details, UpdateAccepted);
    var back := ReadBack(AddSubscriber(name, email, moods, today, Fetched(Some(details)), UpdateAccepted).update.value);
    forall i | 0 <= i < |details| && Complete(details[i])
      ensures back[i] == details[i]
    {
      if details[i].user.Some? {
        var u := details[i].user.value;
        assert WriteBlock(details[i]) == WrittenBlock(Some(WriteUser(u)));
      }
    }
  }

  // ---------------------------------------------------------------------
  // getSubscribersByMoods

  datatype Subscriber = Subscriber(name: string, email: string, preferredMoods: seq<string>)

  /** A stored user as the filter reads it: the moods split on `,\s*`. */
  function AsSubscriber(u: User): Subscriber {
    Subscriber(OptString(u.name), OptString(u.email), SplitCommaSpace(OptString(u.preferredMoods)))
  }

  /** The blocks that hold a user, in stored order. */
  function UserBlocks(details: seq<UserBlock>): seq<UserBlock> {
    Filter(details, (b: UserBlock) => b.user.Some?)
  }

  /** Every stored user, in order; blocks without a user are skipped: the
      k-th subscriber is read from the k-th block that holds a user. */
  function StoredSubscribers(details: seq<UserBlock>): (r: seq<Subscriber>)
    ensures |r| <= |details|
    ensures |r| == |UserBlocks(details)|
    ensures forall k :: 0 <= k < |r| ==>
      UserBlocks(details)[k].user.Some? && r[k] == AsSubscriber(UserBlocks(details)[k].user.value)
  {
    var blocks := UserBlocks(details);
    seq(|blocks|, k requires 0 <= k < |blocks| => AsSubscriber(blocks[k].user.value))
  }

  /** A block is kept by `UserBlocks` exactly when it is one of the blocks and holds a user. */
  lemma UserBlockMember(details: seq<UserBlock>, b: UserBlock)
    ensures b in UserBlocks(details) <==> b in details && b.user.Some?
  {
    var blocks := UserBlocks(details);
    assert multiset(blocks)[b] == if b.user.Some? then multiset(details)[b] else 0;
    assert b in blocks <==> multiset(blocks)[b] > 0;
    assert b in details <==> multiset(details)[b] > 0;
  }

  /** A subscriber is listed exactly when some block holds a user read as it. */
  lemma StoredSubscriberMembers(details: seq<UserBlock>, s: Subscriber)
    ensures s in StoredSubscribers(details) <==>
      exists i :: 0 <= i < |details| && details[i].user.Some? && s == AsSubscriber(details[i].user.value)
  {
    var blocks := UserBlocks(details);
    var r := StoredSubscribers(details);
    if s in r {
      var k :| 0 <= k < |r| && r[k] == s;
      UserBlockMember(details, blocks[k]);
      var i :| 0 <= i < |details| && details[i] == blocks[k];
      assert details[i].user.Some? && s == AsSubscriber(details[i].user.value);
    }
    if i :| 0 <= i < |details| && details[i].user.Some? && s == AsSubscriber(details[i].user.value) {
      UserBlockMember(details, details[i]);
      var k :| 0 <= k < |blocks| && blocks[k] == details[i];
      assert r[k] == s;
    }
  }

  predicate Matches(s: Subscriber, tags: Option<seq<string>>) {
    MoodMapper.HasMatchingMood(Some(s.preferredMoods), tags)
  }

  /** `getSubscribersByMoods`: a failed or throwing fetch, or an entry without
      `user_details`, gives no one; otherwise the stored users whose split
      moods match the tags, in stored order. */
  function GetSubscribersByMoods(tags: Option<seq<string>>, fetch: FetchOutcome): (r: seq<Subscriber>)
    ensures !fetch.Fetched? || fetch.userDetails.None? ==> r == []
    ensures fetch.Fetched? && fetch.userDetails.Some? ==>
      var stored := StoredSubscribers(fetch.userDetails.value);
      && IsSubsequence(r, stored)
      && (forall i :: 0 <= i < |r| ==> Matches(r[i], tags))
      && (forall s :: multiset(r)[s] == if Matches(s, tags) then multiset(stored)[s] else 0)
  {
    if !fetch.Fetched? || fetch.userDetails.None? then []
    else Filter(StoredSubscribers(fetch.userDetails.value), s => Matches(s, tags))
  }

  /** A user added with moods that split back cleanly is found by the filter
      exactly when those moods match the tags. */
  lemma AddedUserFoundByMoods(name: string, email: string, moods: seq<string>, today: Date,
                              details: seq<UserBlock>, tags: Option<seq<string>>)
    requires ValidDate(today)
    requires !IsSubscribed(details, email)
    requires SplittableItems(moods)
    ensures var p := AddSubscriber(name, email, moods, today, Fetched(Some(details)), UpdateAccepted).update.value;
      var found := GetSubscribersByMoods(tags, Fetched(Some(ReadBack(p))));
      Subscriber(name, email, moods) in found <==> MoodMapper.HasMatchingMood(Some(moods), tags)
  {
    var p := AddSubscriber(name, email, moods, today, Fetched(Some(details)), UpdateAccepted).update.value;
    AddedUserIsLast(name, email, moods, today, details, UpdateAccepted);
    var back := ReadBack(p);
    var s := Subscriber(name, email, moods);
    SplitJoinRoundTrip(moods);
    assert AsSubscriber(back[|details|].user.value) == s;
    var stored := StoredSubscribers(back);
    StoredSubscriberMembers(back, s);
    assert s in stored;
    var found := GetSubscribersByMoods(tags, Fetched(Some(back)));
    if Matches(s, tags) {
      assert multiset(stored)[s] > 0;
      assert multiset(found)[s] > 0;
    }
  }
}
