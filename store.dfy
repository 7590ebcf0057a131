/**
 * The request handlers that write to the store (register, create poll,
 * vote) and the results query, as methods of a store object whose four
 * tables are sequence fields. Each handler runs its guards in the order the
 * service does and either answers with an error and leaves every table as it
 * was, or performs one insert.
 */
module Server {
  import opened Tables
  import opened Tally

  /** A created poll together with its options, as the create-poll handler answers it. */
  datatype PollWithOptions = PollWithOptions(poll: Poll, options: seq<PollOption>)

  /** The option rows created for a new poll: one per input text, in input order, with consecutive ids. */
  function NewOptions(texts: seq<string>, firstId: int, pollId: int): (r: seq<PollOption>)
    ensures |r| == |texts|
    ensures forall i :: 0 <= i < |r| ==> r[i].id == firstId + i && r[i].text == texts[i] && r[i].pollId == pollId
  {
    seq(|texts|, i requires 0 <= i < |texts| => PollOption(firstId + i, texts[i], pollId))
  }

  /** Registering a user with a new email and the next id keeps the store invariant. */
  lemma RegisterKeepsWellFormed(users: seq<User>, polls: seq<Poll>, options: seq<PollOption>, votes: seq<Vote>, user: User)
    requires WellFormed(users, polls, options, votes)
    requires user.id == |users| + 1 && !EmailTaken(users, user.email)
    ensures WellFormed(users + [user], polls, options, votes)
  {
  }

  /**
   * The options of a new poll, whose id no existing option carries, are
   * exactly the created rows, in input order.
   */
  lemma OptionsOfNewPoll(options: seq<PollOption>, pollId: int, texts: seq<string>)
    requires forall i :: 0 <= i < |options| ==> options[i].pollId < pollId
    ensures OptionsOf(options + NewOptions(texts, |options| + 1, pollId), pollId) == NewOptions(texts, |options| + 1, pollId)
  {
    var created := NewOptions(texts, |options| + 1, pollId);
    OptionsOfOtherPolls(options, pollId);
    OptionsOfAppend(options, created, pollId);
    OptionsOfSamePoll(created, pollId);
  }

  /**
   * Creating a poll with the next poll id and its options with the next
   * option ids keeps the store invariant.
   */
  lemma CreatePollKeepsWellFormed(users: seq<User>, polls: seq<Poll>, options: seq<PollOption>, votes: seq<Vote>,
                                  poll: Poll, texts: seq<string>)
    requires WellFormed(users, polls, options, votes)
    requires poll.id == |polls| + 1
    ensures WellFormed(users, polls + [poll], options + NewOptions(texts, |options| + 1, poll.id), votes)
  {
    var created := NewOptions(texts, |options| + 1, poll.id);
    var options' := options + created;
    var polls' := polls + [poll];
    forall i | 0 <= i < |polls'| ensures polls'[i].id == i + 1 {
      if i < |polls| { assert polls'[i] == polls[i]; }
    }
    forall i | 0 <= i < |options'| ensures options'[i].id == i + 1 && 1 <= options'[i].pollId <= |polls'| {
      if i < |options| { assert options'[i] == options[i]; }
    }
    forall i | 0 <= i < |votes| ensures PollOf(options', votes[i].pollOptionId) == PollOf(options, votes[i].pollOptionId) {
      PollOfAppend(options, created, votes[i].pollOptionId);
    }
    OneVoteUnderSamePolls(options, options', votes);
  }

  /**
   * Recording a vote of `vote.userId` on an option of poll `pollId`, when
   * that user has no vote on the poll yet, keeps the store invariant: in
   * particular each (user, poll) pair still has at most one vote.
   */
  lemma VoteKeepsWellFormed(users: seq<User>, polls: seq<Poll>, options: seq<PollOption>, votes: seq<Vote>,
                            pollId: int, vote: Vote)
    requires WellFormed(users, polls, options, votes)
    requires vote.id == |votes| + 1
    requires OptionInPoll(options, vote.pollOptionId, pollId)
    requires !HasVoted(options, votes, vote.userId, pollId)
    ensures WellFormed(users, polls, options, votes + [vote])
  {
    var k :| 0 <= k < |options| && options[k].id == vote.pollOptionId && options[k].pollId == pollId;
    assert DistinctIds(options);
    PollOfUnique(options, k);
    var votes' := votes + [vote];
    forall i | 0 <= i < |votes'| ensures votes'[i].id == i + 1 && PollOf(options, votes'[i].pollOptionId).Some? {
      if i < |votes| { assert votes'[i] == votes[i]; }
    }
    forall i, j | 0 <= i < j < |votes'| && votes'[i].userId == votes'[j].userId
      ensures PollOf(options, votes'[i].pollOptionId) != PollOf(options, votes'[j].pollOptionId)
    {
      assert votes'[i] == votes[i];
      if j < |votes| {
        assert votes'[j] == votes[j];
      }
    }
  }

  /**
   * The option the vote handler picks is an option of the poll: the one
   * with the requested id or, without one, the poll's option with the
   * smallest id.
   */
  lemma ChosenOption(users: seq<User>, polls: seq<Poll>, options: seq<PollOption>, votes: seq<Vote>,
                     optionId: Option<int>, pollId: int)
    requires WellFormed(users, polls, options, votes)
    requires OptionSelected(options, optionId, pollId)
    ensures var chosen := FindOption(options, optionId, pollId).value;
      && chosen in options && chosen.pollId == pollId
      && OptionInPoll(options, chosen.id, pollId)
      && (optionId.Some? ==> chosen.id == optionId.value)
      && (optionId.None? ==> forall j :: 0 <= j < |options| && options[j].pollId == pollId ==> chosen.id <= options[j].id)
  {
    var chosen := FindOption(options, optionId, pollId).value;
    FindOptionIsFirst(options, optionId, pollId);
    var k :| 0 <= k < |options| && options[k] == chosen
             && forall j :: 0 <= j < k ==> !MatchesOption(options[j], optionId, pollId);
    assert options[k].id == chosen.id && options[k].pollId == pollId;
    if optionId.None? {
      forall j | 0 <= j < |options| && options[j].pollId == pollId ensures chosen.id <= options[j].id {
        assert MatchesOption(options[j], optionId, pollId);
      }
    }
  }

  /**
   * The tally broadcast after recording a vote on an option of poll
   * `pollId`: the poll exists, its total is one more than before, and only
   * the chosen option's count went up, by one.
   */
  lemma TallyOfRecordedVote(users: seq<User>, polls: seq<Poll>, options: seq<PollOption>, votes: seq<Vote>,
                            pollId: int, vote: Vote)
    requires WellFormed(users, polls, options, votes)
    requires OptionInPoll(options, vote.pollOptionId, pollId)
    ensures FindPoll(polls, pollId).Some?
    ensures var opts := OptionsOf(options, pollId);
      var t := ComputeResults(FindPoll(polls, pollId).value, opts, votes + [vote]);
      && t.totalVotes == TotalVotes(opts, votes) + 1
      && (forall j :: 0 <= j < |opts| ==>
            t.results[j].votes == VoteCount(votes, opts[j].id) + (if opts[j].id == vote.pollOptionId then 1 else 0))
  {
    var k :| 0 <= k < |options| && options[k].id == vote.pollOptionId && options[k].pollId == pollId;
    assert DistinctIds(options);
    PollOfUnique(options, k);
    assert polls[pollId - 1].id == pollId;
    var poll := FindPoll(polls, pollId).value;
    TallyAfterVote(poll, options, votes, vote);
  }

  class Store {
    var users: seq<User>
    var polls: seq<Poll>
    var options: seq<PollOption>
    var votes: seq<Vote>

    ghost predicate Valid()
      reads this
    {
      WellFormed(users, polls, options, votes)
    }

    /** An empty store. */
    constructor ()
      ensures Valid()
      ensures users == [] && polls == [] && options == [] && votes == []
    {
      users, polls, options, votes := [], [], [], [];
    }

    /**
     * POST /register. `passwordHash` is the digest of the password, computed
     * by the caller.
     */
    method Register(name: Option<string>, email: Option<string>, password: Option<string>, passwordHash: string)
      returns (r: Result<User>)
      requires Valid()
      modifies this
      ensures Valid()
      ensures polls == old(polls) && options == old(options) && votes == old(votes)
      ensures !(Present(name) && Present(email) && Present(password)) ==>
        r == Failure(InvalidData) && users == old(users)
      ensures Present(name) && Present(email) && Present(password) && EmailTaken(old(users), email.value) ==>
        r == Failure(UserExists) && users == old(users)
      ensures Present(name) && Present(email) && Present(password) && !EmailTaken(old(users), email.value) ==>
        && r == Success(User(|old(users)| + 1, name.value, email.value, passwordHash))
        && users == old(users) + [r.value]
    {
      if !Present(name) || !Present(email) || !Present(password) {
        return Failure(InvalidData);
      }
      var existing := FindUserByEmail(users, email.value);
      if existing.Some? {
        return Failure(UserExists);
      }
      var user := User(|users| + 1, name.value, email.value, passwordHash);
      RegisterKeepsWellFormed(users, polls, options, votes, user);
      users := users + [user];
      r := Success(user);
    }

    /** POST /polls, created by the authenticated user `creatorId`. */
    method CreatePoll(creatorId: int, question: Option<string>, texts: Option<seq<string>>)
      returns (r: Result<PollWithOptions>)
      requires Valid()
      modifies this
      ensures Valid()
      ensures users == old(users) && votes == old(votes)
      ensures !(Present(question) && texts.Some? && |texts.value| >= 2) ==>
        r == Failure(InvalidPoll) && polls == old(polls) && options == old(options)
      ensures Present(question) && texts.Some? && |texts.value| >= 2 ==>
        && r.Success?
        && r.value.poll == Poll(|old(polls)| + 1, question.value, true, creatorId)
        && polls == old(polls) + [r.value.poll]
        && options == old(options) + r.value.options
        && |r.value.options| == |texts.value|
        && (forall i :: 0 <= i < |texts.value| ==>
              r.value.options[i] == PollOption(|old(options)| + 1 + i, texts.value[i], r.value.poll.id))
        && OptionsOf(options, r.value.poll.id) == r.value.options
    {
      if !Present(question) || texts.None? || |texts.value| < 2 {
        return Failure(InvalidPoll);
      }
      var poll := Poll(|polls| + 1, question.value, true, creatorId);
      var created := NewOptions(texts.value, |options| + 1, poll.id);
      CreatePollKeepsWellFormed(users, polls, options, votes, poll, texts.value);
      OptionsOfNewPoll(options, poll.id, texts.value);
      polls := polls + [poll];
      options := options + created;
      r := Success(PollWithOptions(poll, created));
    }

    /**
     * POST /polls/:id/vote by the authenticated user `userId`. The option is
     * the first row of the poll that passes the option filter: the one with
     * the given id, or, for a body without an option id, the poll's option
     * with the smallest id. On success the answer is the `pollUpdated` event
     * broadcast to the poll's viewers.
     */
    method CastVote(pollId: int, optionId: Option<int>, userId: int) returns (r: Result<PollUpdate>)
      requires Valid()
      modifies this
      ensures Valid()
      ensures users == old(users) && polls == old(polls) && options == old(options)
      ensures !OptionSelected(options, optionId, pollId) ==>
        r == Failure(InvalidOption) && votes == old(votes)
      ensures OptionSelected(options, optionId, pollId) ==>
        var chosen := FindOption(options, optionId, pollId).value;
        && chosen in options && chosen.pollId == pollId
        && (optionId.Some? ==> chosen.id == optionId.value)
        && (optionId.None? ==> forall j :: 0 <= j < |options| && options[j].pollId == pollId ==> chosen.id <= options[j].id)
      ensures OptionSelected(options, optionId, pollId) && HasVoted(options, old(votes), userId, pollId) ==>
        r == Failure(AlreadyVoted) && votes == old(votes)
      ensures OptionSelected(options, optionId, pollId) && !HasVoted(options, old(votes), userId, pollId) ==>
        var chosen := FindOption(options, optionId, pollId).value;
        && votes == old(votes) + [Vote(|old(votes)| + 1, userId, chosen.id)]
        && r.Success?
        && r.value.pollId == pollId
        && (exists i :: 0 <= i < |polls| && polls[i].id == pollId
              && r.value.tally == ComputeResults(polls[i], OptionsOf(options, pollId), votes))
        && r.value.tally.totalVotes == TotalVotes(OptionsOf(options, pollId), old(votes)) + 1
        && (forall j :: 0 <= j < |OptionsOf(options, pollId)| ==>
              var opt := OptionsOf(options, pollId)[j];
              r.value.tally.results[j].votes == VoteCount(old(votes), opt.id) + (if opt.id == chosen.id then 1 else 0))
    {
      var option := FindOption(options, optionId, pollId);
      if option.None? {
        return Failure(InvalidOption);
      }
      ChosenOption(users, polls, options, votes, optionId, pollId);
      var existing := FindVoteOnPoll(options, votes, userId, pollId);
      if existing.Some? {
        return Failure(AlreadyVoted);
      }
      r := RecordVote(pollId, option.value.id, userId);
    }

    /**
     * The insert of the vote handler once both guards have passed, and the
     * tally it broadcasts, read back from the updated tables.
     */
    method RecordVote(pollId: int, optionId: int, userId: int) returns (r: Result<PollUpdate>)
      requires Valid()
      requires OptionInPoll(options, optionId, pollId)
      requires !HasVoted(options, votes, userId, pollId)
      modifies this
      ensures Valid()
      ensures users == old(users) && polls == old(polls) && options == old(options)
      ensures votes == old(votes) + [Vote(|old(votes)| + 1, userId, optionId)]
      ensures r.Success? && r.value.pollId == pollId
      ensures exists i :: 0 <= i < |polls| && polls[i].id == pollId
                          && r.value.tally == ComputeResults(polls[i], OptionsOf(options, pollId), votes)
      ensures r.value.tally.totalVotes == TotalVotes(OptionsOf(options, pollId), old(votes)) + 1
      ensures forall j :: 0 <= j < |OptionsOf(options, pollId)| ==>
        var opt := OptionsOf(options, pollId)[j];
        r.value.tally.results[j].votes == VoteCount(old(votes), opt.id) + (if opt.id == optionId then 1 else 0)
    {
      var vote := Vote(|votes| + 1, userId, optionId);
      VoteKeepsWellFormed(users, polls, options, votes, pollId, vote);
      TallyOfRecordedVote(users, polls, options, votes, pollId, vote);
      votes := votes + [vote];
      var poll := FindPoll(polls, pollId);
      ghost var i :| 0 <= i < |polls| && polls[i] == poll.value;
      var tally := ComputeResults(poll.value, OptionsOf(options, pollId), votes);
      assert polls[i].id == pollId && tally == ComputeResults(polls[i], OptionsOf(options, pollId), votes);
      r := Success(PollUpdate(pollId, tally));
    }

    /** GET /polls/:id/results */
    method GetResults(pollId: int) returns (r: Result<Tally>)
      requires Valid()
      ensures r.Failure? <==> forall i :: 0 <= i < |polls| ==> polls[i].id != pollId
      ensures r.Failure? ==> r.error == PollNotFound
      ensures r.Success? ==>
        exists i :: 0 <= i < |polls| && polls[i].id == pollId
          && r.value == ComputeResults(polls[i], OptionsOf(options, pollId), votes)
      ensures r.Success? ==> r.value.totalVotes == |VotesOnPoll(options, votes, pollId)|
    {
      var poll := FindPoll(polls, pollId);
      if poll.None? {
        return Failure(PollNotFound);
      }
      assert DistinctIds(options);
      TotalIsVotesOnPoll(options, votes, pollId);
      r := Success(ComputeResults(poll.value, OptionsOf(options, pollId), votes));
    }
  }
}
