/**
 * Clients of the store, each run on small concrete tables: a repeated
 * registration, the creation of a two-option poll, a first vote, a refused
 * second vote by the same user, a vote without an option id by another
 * user, a vote for an option the poll does not have, and the results
 * query. Every assertion follows from the handlers' contracts alone.
 */
module Scenarios {
  import opened Tables
  import opened Tally
  import opened Server

  /** Registering twice with one email creates one user. */
  method RepeatedRegistration()
  {
    var store := new Store();

    var ann := store.Register(Some("Ann"), Some("ann@example.com"), Some("pw1"), "digest1");
    assert ann == Success(User(1, "Ann", "ann@example.com", "digest1"));
    assert EmailTaken(store.users, "ann@example.com") by {
      assert store.users[0].email == "ann@example.com";
    }
    var twice := store.Register(Some("Ann B."), Some("ann@example.com"), Some("pw2"), "digest2");
    assert twice == Failure(UserExists) && |store.users| == 1;
    assert Message(twice.error) == "User already exists" && Status(twice.error) == 400;
    var missing := store.Register(Some("Bob"), Some(""), Some("pw3"), "digest3");
    assert missing == Failure(InvalidData) && Message(missing.error) == "Invalid data";
    var bob := store.Register(Some("Bob"), Some("bob@example.com"), Some("pw3"), "digest3");
    assert bob.Success? && bob.value.id == 2;
  }

  /** A poll needs two options; its options get the next ids, in input order. */
  method PollCreation()
  {
    var store := new Store();
    var tooFew := store.CreatePoll(1, Some("Tabs or spaces?"), Some(["Tabs"]));
    assert tooFew == Failure(InvalidPoll) && store.polls == [];
    assert Message(tooFew.error) == "Poll must have a question and at least 2 options";
    var noQuestion := store.CreatePoll(1, Some(""), Some(["Tabs", "Spaces"]));
    assert noQuestion == Failure(InvalidPoll) && store.options == [];
    var created := store.CreatePoll(1, Some("Tabs or spaces?"), Some(["Tabs", "Spaces"]));
    assert created.Success? && created.value.poll == Poll(1, "Tabs or spaces?", true, 1);
    assert created.value.options[0] == PollOption(1, "Tabs", 1);
    assert created.value.options[1] == PollOption(2, "Spaces", 1);
    assert |created.value.options| == 2;
    assert OptionsOf(store.options, 1) == [PollOption(1, "Tabs", 1), PollOption(2, "Spaces", 1)];
  }

  /** The first vote on a fresh two-option poll. */
  method FirstVote(store: Store)
    requires store.Valid()
    requires store.polls == [Poll(1, "Tabs or spaces?", true, 1)]
    requires store.options == [PollOption(1, "Tabs", 1), PollOption(2, "Spaces", 1)]
    requires store.votes == []
    modifies store
  {
    OptionsOfSamePoll(store.options, 1);
    assert OptionSelected(store.options, Some(1), 1) by { assert MatchesOption(store.options[0], Some(1), 1); }
    TotalWithoutVotes(store.options);
    var first := store.CastVote(1, Some(1), 1);
    assert first.Success? && first.value.tally.totalVotes == 1;
    assert first.value.tally.results[0].votes == 1 && first.value.tally.results[1].votes == 0;
    assert first.value.tally.results[1].percentage == Share(0, 1);
    assert store.votes == [Vote(1, 1, 1)];
  }

  /** After one vote, the same voter is refused. */
  method SameVoterAgain(store: Store)
    requires store.Valid()
    requires store.polls == [Poll(1, "Tabs or spaces?", true, 1)]
    requires store.options == [PollOption(1, "Tabs", 1), PollOption(2, "Spaces", 1)]
    requires store.votes == [Vote(1, 1, 1)]
    modifies store
  {
    assert OptionSelected(store.options, Some(2), 1) by { assert MatchesOption(store.options[1], Some(2), 1); }
    assert HasVoted(store.options, store.votes, 1, 1) by {
      assert store.votes[0].userId == 1 && PollOf(store.options, store.votes[0].pollOptionId) == Some(1);
    }
    var again := store.CastVote(1, Some(2), 1);
    assert again == Failure(AlreadyVoted) && store.votes == [Vote(1, 1, 1)];
    assert Message(again.error) == "User already voted";
  }

  /** After one vote, another voter whose body names no option votes for the poll's first option. */
  method SecondVoter(store: Store)
    requires store.Valid()
    requires store.polls == [Poll(1, "Tabs or spaces?", true, 1)]
    requires store.options == [PollOption(1, "Tabs", 1), PollOption(2, "Spaces", 1)]
    requires store.votes == [Vote(1, 1, 1)]
    modifies store
  {
    assert !HasVoted(store.options, store.votes, 2, 1);
    assert OptionSelected(store.options, None, 1) by { assert MatchesOption(store.options[0], None, 1); }
    var second := store.CastVote(1, None, 2);
    assert second.Success?;
    assert store.votes == [Vote(1, 1, 1), Vote(2, 2, 1)];
  }

  /** An option id that no option of the poll carries is refused. */
  method ForeignOption(store: Store)
    requires store.Valid()
    requires store.polls == [Poll(1, "Tabs or spaces?", true, 1)]
    requires store.options == [PollOption(1, "Tabs", 1), PollOption(2, "Spaces", 1)]
    requires store.votes == [Vote(1, 1, 1), Vote(2, 2, 1)]
    modifies store
  {
    assert !OptionSelected(store.options, Some(3), 1) by {
      forall i | 0 <= i < |store.options| ensures !MatchesOption(store.options[i], Some(3), 1) {
        assert store.options[i].id == i + 1;
      }
    }
    var unknown := store.CastVote(1, Some(3), 2);
    assert unknown == Failure(InvalidOption) && |store.votes| == 2;
    assert Message(unknown.error) == "Invalid option for this poll" && Status(unknown.error) == 400;
  }

  /** The results query answers for existing polls only. */
  method Results(store: Store)
    requires store.Valid()
    requires store.polls == [Poll(1, "Tabs or spaces?", true, 1)]
    requires store.options == [PollOption(1, "Tabs", 1), PollOption(2, "Spaces", 1)]
    requires store.votes == [Vote(1, 1, 1), Vote(2, 2, 1)]
  {
    var results := store.GetResults(1);
    assert results.Success? by { assert store.polls[0].id == 1; }
    var none := store.GetResults(2);
    assert none == Failure(PollNotFound) && Message(none.error) == "Poll not found" && Status(none.error) == 404;
  }
}
