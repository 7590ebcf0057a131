/**
 * The four tables of the polling service (users, polls, poll options and
 * votes) as records, the error answers of the request handlers, and the
 * lookups the handlers run against the tables. The relational store is
 * replaced by sequences kept in insertion order; a lookup that the store
 * answers with its first match (`findFirst`, `findUnique`) is a scan that
 * returns the first matching row.
 */
module Tables {

  datatype Option<T> = None | Some(value: T)

  /** The error answers of the handlers: the message of each and its status. */
  datatype Error =
    | InvalidData       // register: a field is missing
    | UserExists        // register: the email is taken
    | InvalidPoll       // create poll: no question or fewer than two options
    | InvalidOption     // vote: the option is not one of the poll's
    | AlreadyVoted      // vote: the user has a vote on this poll
    | PollNotFound      // results: no poll has the id

  /** The `error` text the handler answers with. */
  function Message(e: Error): (m: string)
  {
    match e
    case InvalidData => "Invalid data"
    case UserExists => "User already exists"
    case InvalidPoll => "Poll must have a question and at least 2 options"
    case InvalidOption => "Invalid option for this poll"
    case AlreadyVoted => "User already voted"
    case PollNotFound => "Poll not found"
  }

  /** The HTTP status of the answer: not found for a missing poll, bad request otherwise. */
  function Status(e: Error): (code: nat)
  {
    if e == PollNotFound then 404 else 400
  }

  datatype Result<T> = Success(value: T) | Failure(error: Error)

  datatype User = User(id: int, name: string, email: string, passwordHash: string)
  datatype Poll = Poll(id: int, question: string, isPublished: bool, creatorId: int)
  datatype PollOption = PollOption(id: int, text: string, pollId: int)
  datatype Vote = Vote(id: int, userId: int, pollOptionId: int)

  /** A request-body field that is truthy: present and not the empty string. */
  predicate Present(field: Option<string>)
  {
    field.Some? && field.value != ""
  }

  /** The lookup of a user by email that registration runs before inserting. */
  function FindUserByEmail(users: seq<User>, email: string): (r: Option<User>)
    ensures r.Some? <==> EmailTaken(users, email)
    ensures r.Some? ==> r.value in users && r.value.email == email
  {
    if users == [] then None
    else if users[0].email == email then Some(users[0])
    else
      var r := FindUserByEmail(users[1..], email);
      assert r.Some? ==> EmailTaken(users, email) by {
        if r.Some? {
          var i :| 0 <= i < |users[1..]| && users[1..][i].email == email;
          assert users[i + 1].email == email;
        }
      }
      r
  }

  ghost predicate EmailTaken(users: seq<User>, email: string)
  {
    exists i :: 0 <= i < |users| && users[i].email == email
  }

  /** The lookup of a poll by id. */
  function FindPoll(polls: seq<Poll>, id: int): (r: Option<Poll>)
    ensures r.Some? <==> exists i :: 0 <= i < |polls| && polls[i].id == id
    ensures r.Some? ==> r.value in polls && r.value.id == id
  {
    if polls == [] then None
    else if polls[0].id == id then Some(polls[0])
    else
      var r := FindPoll(polls[1..], id);
      assert r.Some? ==> exists i :: 0 <= i < |polls| && polls[i].id == id by {
        if r.Some? {
          var i :| 0 <= i < |polls[1..]| && polls[1..][i].id == id;
          assert polls[i + 1].id == id;
        }
      }
      r
  }

  /** There is an option with the given id that belongs to the given poll: the filter with an id passes it. */
  ghost predicate OptionInPoll(options: seq<PollOption>, optionId: int, pollId: int)
  {
    OptionSelected(options, Some(optionId), pollId)
  }

  /**
   * The option filter of the vote handler: the option belongs to the poll
   * and, when the request body names an option id, carries that id. A body
   * without an option id leaves the id out of the filter (the store drops a
   * field whose value is undefined), so then every option of the poll matches.
   */
  predicate MatchesOption(o: PollOption, optionId: Option<int>, pollId: int)
  {
    o.pollId == pollId && (optionId.Some? ==> o.id == optionId.value)
  }

  /** Some option row passes the vote handler's option filter. */
  ghost predicate OptionSelected(options: seq<PollOption>, optionId: Option<int>, pollId: int)
  {
    exists i :: 0 <= i < |options| && MatchesOption(options[i], optionId, pollId)
  }

  /** The lookup of the vote handler's option: a row that passes the filter (the first, by FindOptionIsFirst). */
  function FindOption(options: seq<PollOption>, optionId: Option<int>, pollId: int): (r: Option<PollOption>)
    ensures r.Some? <==> OptionSelected(options, optionId, pollId)
    ensures r.Some? ==> r.value in options && MatchesOption(r.value, optionId, pollId)
  {
    if options == [] then None
    else if MatchesOption(options[0], optionId, pollId) then Some(options[0])
    else
      var r := FindOption(options[1..], optionId, pollId);
      assert r.Some? ==> OptionSelected(options, optionId, pollId) by {
        if r.Some? {
          var i :| 0 <= i < |options[1..]| && MatchesOption(options[1..][i], optionId, pollId);
          assert options[i + 1] == options[1..][i];
        }
      }
      assert OptionSelected(options, optionId, pollId) ==> OptionSelected(options[1..], optionId, pollId) by {
        if OptionSelected(options, optionId, pollId) {
          var i :| 0 <= i < |options| && MatchesOption(options[i], optionId, pollId);
          assert i > 0 && options[1..][i - 1] == options[i];
        }
      }
      r
  }

  /** The option the lookup finds is the first row that passes the filter: no earlier row does. */
  lemma {:induction false} FindOptionIsFirst(options: seq<PollOption>, optionId: Option<int>, pollId: int)
    requires OptionSelected(options, optionId, pollId)
    ensures exists k :: 0 <= k < |options| && options[k] == FindOption(options, optionId, pollId).value
                          && forall j :: 0 <= j < k ==> !MatchesOption(options[j], optionId, pollId)
  {
    if !MatchesOption(options[0], optionId, pollId) {
      var i :| 0 <= i < |options| && MatchesOption(options[i], optionId, pollId);
      assert i > 0 && options[1..][i - 1] == options[i];
      FindOptionIsFirst(options[1..], optionId, pollId);
      var k :| 0 <= k < |options[1..]| && options[1..][k] == FindOption(options[1..], optionId, pollId).value
               && forall j :: 0 <= j < k ==> !MatchesOption(options[1..][j], optionId, pollId);
      assert options[k + 1] == options[1..][k];
      forall j | 0 <= j < k + 1 ensures !MatchesOption(options[j], optionId, pollId) {
        if j > 0 { assert options[j] == options[1..][j - 1]; }
      }
    } else {
      assert options[0] == FindOption(options, optionId, pollId).value;
    }
  }

  /**
   * The poll of the option a vote points at (the vote's relation to its
   * option, followed to that option's poll): the poll of the first option with that id, or None when no
   * option has it.
   */
  function PollOf(options: seq<PollOption>, optionId: int): (r: Option<int>)
    ensures r.Some? <==> exists i :: 0 <= i < |options| && options[i].id == optionId
  {
    if options == [] then None
    else if options[0].id == optionId then Some(options[0].pollId)
    else
      var r := PollOf(options[1..], optionId);
      assert r.Some? ==> exists i :: 0 <= i < |options| && options[i].id == optionId by {
        if r.Some? {
          var i :| 0 <= i < |options[1..]| && options[1..][i].id == optionId;
          assert options[i + 1].id == optionId;
        }
      }
      r
  }

  /** The user has a vote on some option of the poll. */
  ghost predicate HasVoted(options: seq<PollOption>, votes: seq<Vote>, userId: int, pollId: int)
  {
    exists i :: 0 <= i < |votes| && votes[i].userId == userId && PollOf(options, votes[i].pollOptionId) == Some(pollId)
  }

  /** The lookup of a vote by the given user on any option of the given poll. */
  function FindVoteOnPoll(options: seq<PollOption>, votes: seq<Vote>, userId: int, pollId: int): (r: Option<Vote>)
    ensures r.Some? <==> HasVoted(options, votes, userId, pollId)
    ensures r.Some? ==> r.value in votes && r.value.userId == userId
  {
    if votes == [] then None
    else if votes[0].userId == userId && PollOf(options, votes[0].pollOptionId) == Some(pollId) then Some(votes[0])
    else
      var r := FindVoteOnPoll(options, votes[1..], userId, pollId);
      assert r.Some? ==> HasVoted(options, votes, userId, pollId) by {
        if r.Some? {
          var i :| 0 <= i < |votes[1..]| && votes[1..][i].userId == userId
                   && PollOf(options, votes[1..][i].pollOptionId) == Some(pollId);
          assert votes[i + 1] == votes[1..][i];
        }
      }
      r
  }

  /**
   * The options of a poll, in table order, as the store includes them with the poll.
   */
  function OptionsOf(options: seq<PollOption>, pollId: int): (r: seq<PollOption>)
    ensures |r| <= |options|
  {
    if options == [] then []
    else
      var last := options[|options| - 1];
      OptionsOf(options[..|options| - 1], pollId) + (if last.pollId == pollId then [last] else [])
  }

  /** The poll's options are option rows of that poll. */
  lemma {:induction false} OptionsOfSound(options: seq<PollOption>, pollId: int)
    ensures forall o :: o in OptionsOf(options, pollId) ==> o in options && o.pollId == pollId
  {
    if options != [] {
      var init := options[..|options| - 1];
      OptionsOfSound(init, pollId);
      forall o | o in OptionsOf(options, pollId) ensures o in options && o.pollId == pollId {
        if o in OptionsOf(init, pollId) {
          var i :| 0 <= i < |init| && init[i] == o;
          assert options[i] == o;
        }
      }
    }
  }

  /** Every option row of the poll is among the poll's options. */
  lemma {:induction false} OptionsOfComplete(options: seq<PollOption>, pollId: int)
    ensures forall i :: 0 <= i < |options| && options[i].pollId == pollId ==> options[i] in OptionsOf(options, pollId)
  {
    if options != [] {
      var init := options[..|options| - 1];
      OptionsOfComplete(init, pollId);
      forall i | 0 <= i < |options| && options[i].pollId == pollId ensures options[i] in OptionsOf(options, pollId) {
        if i < |init| {
          assert options[i] == init[i];
        }
      }
    }
  }

  lemma {:induction false} OptionsOfAppend(a: seq<PollOption>, b: seq<PollOption>, pollId: int)
    ensures OptionsOf(a + b, pollId) == OptionsOf(a, pollId) + OptionsOf(b, pollId)
  {
    if b == [] {
      assert a + b == a;
    } else {
      var b' := b[..|b| - 1];
      var last := b[|b| - 1];
      var tail := if last.pollId == pollId then [last] else [];
      OptionsOfAppend(a, b', pollId);
      assert (a + b)[..|a + b| - 1] == a + b' && (a + b)[|a + b| - 1] == last;
      assert OptionsOf(a + b, pollId) == OptionsOf(a + b', pollId) + tail;
      assert OptionsOf(b, pollId) == OptionsOf(b', pollId) + tail;
    }
  }

  /** An option table all of whose rows belong to one poll is that poll's options. */
  lemma {:induction false} OptionsOfSamePoll(xs: seq<PollOption>, pollId: int)
    requires forall i :: 0 <= i < |xs| ==> xs[i].pollId == pollId
    ensures OptionsOf(xs, pollId) == xs
  {
    if xs != [] {
      var init := xs[..|xs| - 1];
      var last := xs[|xs| - 1];
      assert forall i :: 0 <= i < |init| ==> init[i].pollId == pollId by {
        forall i | 0 <= i < |init| ensures init[i].pollId == pollId {
          assert init[i] == xs[i];
        }
      }
      OptionsOfSamePoll(init, pollId);
      assert xs == init + [last];
    }
  }

  /** A poll id that no option row carries has no options. */
  lemma {:induction false} OptionsOfOtherPolls(xs: seq<PollOption>, pollId: int)
    requires forall i :: 0 <= i < |xs| ==> xs[i].pollId != pollId
    ensures OptionsOf(xs, pollId) == []
  {
    if xs != [] {
      var init := xs[..|xs| - 1];
      assert forall i :: 0 <= i < |init| ==> init[i] == xs[i];
      OptionsOfOtherPolls(init, pollId);
    }
  }

  /** Adding option rows does not change the poll of an option id already present. */
  lemma {:induction false} PollOfAppend(a: seq<PollOption>, b: seq<PollOption>, optionId: int)
    ensures PollOf(a + b, optionId) == if PollOf(a, optionId).Some? then PollOf(a, optionId) else PollOf(b, optionId)
  {
    if a == [] {
      assert a + b == b;
    } else if a[0].id != optionId {
      assert (a + b)[1..] == a[1..] + b;
      PollOfAppend(a[1..], b, optionId);
    }
  }

  ghost predicate DistinctIds(options: seq<PollOption>)
  {
    forall i, j :: 0 <= i < j < |options| ==> options[i].id != options[j].id
  }

  /** With distinct ids, the poll of an option id is the poll of the one option carrying it. */
  lemma {:induction false} PollOfUnique(options: seq<PollOption>, k: int)
    requires DistinctIds(options)
    requires 0 <= k < |options|
    ensures PollOf(options, options[k].id) == Some(options[k].pollId)
  {
    if k > 0 {
      assert options[0].id != options[k].id;
      assert options[1..][k - 1] == options[k];
      PollOfUnique(options[1..], k - 1);
    }
  }

  /** Each (user, poll) pair has at most one vote across that poll's options. */
  ghost predicate OneVotePerUserPerPoll(options: seq<PollOption>, votes: seq<Vote>)
  {
    forall i, j :: 0 <= i < j < |votes| && votes[i].userId == votes[j].userId ==>
      PollOf(options, votes[i].pollOptionId) != PollOf(options, votes[j].pollOptionId)
  }

  /** The invariant depends on the options only through the polls of the voted-on options. */
  lemma OneVoteUnderSamePolls(options: seq<PollOption>, options': seq<PollOption>, votes: seq<Vote>)
    requires OneVotePerUserPerPoll(options, votes)
    requires forall i :: 0 <= i < |votes| ==> PollOf(options', votes[i].pollOptionId) == PollOf(options, votes[i].pollOptionId)
    ensures OneVotePerUserPerPoll(options', votes)
  {
  }

  /**
   * The store invariant: autoincrement ids (nothing is ever deleted, so the
   * row at index i has id i + 1), unique emails, every option belongs to an
   * existing poll, every vote points at an existing option, and one vote per
   * user per poll.
   */
  ghost predicate WellFormed(users: seq<User>, polls: seq<Poll>, options: seq<PollOption>, votes: seq<Vote>)
  {
    && (forall i :: 0 <= i < |users| ==> users[i].id == i + 1)
    && (forall i, j :: 0 <= i < j < |users| ==> users[i].email != users[j].email)
    && (forall i :: 0 <= i < |polls| ==> polls[i].id == i + 1)
    && (forall i :: 0 <= i < |options| ==> options[i].id == i + 1 && 1 <= options[i].pollId <= |polls|)
    && (forall i :: 0 <= i < |votes| ==> votes[i].id == i + 1 && PollOf(options, votes[i].pollOptionId).Some?)
    && OneVotePerUserPerPoll(options, votes)
  }
}
