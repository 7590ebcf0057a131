/**
 * The tally of a poll: the total number of votes (a reduce over the poll's
 * options summing each option's vote count) and one result record per
 * option (a map over the options). The vote handler broadcasts it after
 * recording a vote and the results query returns it; both use
 * ComputeResults below.
 */
module Tally {
  import opened Tables

  /**
   * The percentage of one option: 0 when the poll has no votes, otherwise
   * the share votes / total (the service prints it as a percentage with two
   * decimals; the ratio is kept exact here).
   */
  datatype Percentage = Zero | Share(votes: nat, total: nat)

  datatype OptionResult = OptionResult(option: string, votes: nat, percentage: Percentage)

  datatype Tally = Tally(question: string, totalVotes: nat, results: seq<OptionResult>)

  /** The `pollUpdated` event sent to the viewers of a poll. */
  datatype PollUpdate = PollUpdate(pollId: int, tally: Tally)

  /** The number of votes pointing at the option. */
  function VoteCount(votes: seq<Vote>, optionId: int): (n: nat)
    ensures n <= |votes|
  {
    if votes == [] then 0
    else VoteCount(votes[..|votes| - 1], optionId) + (if votes[|votes| - 1].pollOptionId == optionId then 1 else 0)
  }

  /** The sum, from the left, of the vote counts of the options. */
  function TotalVotes(opts: seq<PollOption>, votes: seq<Vote>): (n: nat)
    ensures n <= |opts| * |votes|
  {
    if opts == [] then 0
    else TotalVotes(opts[..|opts| - 1], votes) + VoteCount(votes, opts[|opts| - 1].id)
  }

  /** The number of options carrying the given id. */
  function Occurrences(opts: seq<PollOption>, optionId: int): (n: nat)
  {
    if opts == [] then 0
    else Occurrences(opts[..|opts| - 1], optionId) + (if opts[|opts| - 1].id == optionId then 1 else 0)
  }

  /** The votes table restricted to the votes cast on options of the poll. */
  function VotesOnPoll(options: seq<PollOption>, votes: seq<Vote>, pollId: int): (r: seq<Vote>)
  {
    if votes == [] then []
    else
      var v := votes[|votes| - 1];
      VotesOnPoll(options, votes[..|votes| - 1], pollId) + (if PollOf(options, v.pollOptionId) == Some(pollId) then [v] else [])
  }

  /** The result record of one option: its text, its vote count and its share of the total. */
  function ResultOf(opt: PollOption, votes: seq<Vote>, total: nat): (r: OptionResult)
    ensures r.option == opt.text && r.votes == VoteCount(votes, opt.id)
    ensures r.percentage == Zero <==> total == 0
    ensures r.percentage.Share? ==> r.percentage.votes == r.votes && r.percentage.total == total
  {
    var n := VoteCount(votes, opt.id);
    OptionResult(opt.text, n, if total == 0 then Zero else Share(n, total))
  }

  /** One result record per option: its text, its vote count and its percentage. */
  function OptionResults(opts: seq<PollOption>, votes: seq<Vote>, total: nat): (rs: seq<OptionResult>)
    ensures |rs| == |opts|
    ensures forall i :: 0 <= i < |opts| ==> rs[i] == ResultOf(opts[i], votes, total)
  {
    if opts == [] then []
    else OptionResults(opts[..|opts| - 1], votes, total) + [ResultOf(opts[|opts| - 1], votes, total)]
  }

  /** The sum of the `votes` fields of result records. */
  function SumVotes(rs: seq<OptionResult>): (n: nat)
  {
    if rs == [] then 0 else SumVotes(rs[..|rs| - 1]) + rs[|rs| - 1].votes
  }

  /** The sum of the numerators of the shares among result records. */
  function ShareSum(rs: seq<OptionResult>): (n: nat)
  {
    if rs == [] then 0
    else ShareSum(rs[..|rs| - 1]) + (if rs[|rs| - 1].percentage.Share? then rs[|rs| - 1].percentage.votes else 0)
  }

  /**
   * The tally of a poll over its options `opts`: the question, the total,
   * and one record per option in option order.
   */
  function ComputeResults(poll: Poll, opts: seq<PollOption>, votes: seq<Vote>): (t: Tally)
    ensures t.question == poll.question
    ensures t.totalVotes == SumVotes(t.results)
    ensures |t.results| == |opts|
    ensures forall i :: 0 <= i < |opts| ==>
      t.results[i].option == opts[i].text && t.results[i].votes == VoteCount(votes, opts[i].id)
    ensures t.totalVotes == 0 ==> forall i :: 0 <= i < |t.results| ==> t.results[i].percentage == Zero
    ensures t.totalVotes > 0 ==> forall i :: 0 <= i < |t.results| ==>
      t.results[i].percentage == Share(t.results[i].votes, t.totalVotes)
  {
    var total := TotalVotes(opts, votes);
    ResultsSumToTotal(opts, votes, total);
    Tally(poll.question, total, OptionResults(opts, votes, total))
  }

  /** The records' vote counts add up to the reduce over the options. */
  lemma {:induction false} ResultsSumToTotal(opts: seq<PollOption>, votes: seq<Vote>, total: nat)
    ensures SumVotes(OptionResults(opts, votes, total)) == TotalVotes(opts, votes)
  {
    if opts != [] {
      var init := opts[..|opts| - 1];
      ResultsSumToTotal(init, votes, total);
      var rs := OptionResults(opts, votes, total);
      assert rs[..|rs| - 1] == OptionResults(init, votes, total);
    }
  }

  lemma {:induction false} ShareSumOfShares(rs: seq<OptionResult>, total: nat)
    requires forall i :: 0 <= i < |rs| ==> rs[i].percentage == Share(rs[i].votes, total)
    ensures ShareSum(rs) == SumVotes(rs)
  {
    if rs != [] {
      var init := rs[..|rs| - 1];
      assert forall i :: 0 <= i < |init| ==> init[i] == rs[i];
      ShareSumOfShares(init, total);
    }
  }

  /**
   * When a poll has votes, every percentage is a share of the total and
   * the shares add up to the whole (the percentages add up to 100).
   */
  lemma PercentagesSumToWhole(poll: Poll, opts: seq<PollOption>, votes: seq<Vote>)
    requires TotalVotes(opts, votes) > 0
    ensures var t := ComputeResults(poll, opts, votes);
      && (forall i :: 0 <= i < |t.results| ==> t.results[i].percentage.Share? && t.results[i].percentage.total == t.totalVotes)
      && ShareSum(t.results) == t.totalVotes
  {
    var t := ComputeResults(poll, opts, votes);
    ShareSumOfShares(t.results, t.totalVotes);
  }

  lemma {:induction false} TotalWithoutVotes(opts: seq<PollOption>)
    ensures TotalVotes(opts, []) == 0
  {
    if opts != [] {
      TotalWithoutVotes(opts[..|opts| - 1]);
    }
  }

  lemma VoteCountAfterVote(votes: seq<Vote>, v: Vote, optionId: int)
    ensures VoteCount(votes + [v], optionId) == VoteCount(votes, optionId) + (if v.pollOptionId == optionId then 1 else 0)
  {
  }

  /** One more vote raises the total by the number of options it points at. */
  lemma {:induction false} TotalAfterVote(opts: seq<PollOption>, votes: seq<Vote>, v: Vote)
    ensures TotalVotes(opts, votes + [v]) == TotalVotes(opts, votes) + Occurrences(opts, v.pollOptionId)
  {
    if opts != [] {
      TotalAfterVote(opts[..|opts| - 1], votes, v);
      VoteCountAfterVote(votes, v, opts[|opts| - 1].id);
    }
  }

  /** One more option row adds one occurrence to the poll's options when it is the poll's and has the id. */
  lemma OccurrencesStep(init: seq<PollOption>, last: PollOption, pollId: int, optionId: int)
    ensures Occurrences(OptionsOf(init + [last], pollId), optionId)
         == Occurrences(OptionsOf(init, pollId), optionId) + (if last.pollId == pollId && last.id == optionId then 1 else 0)
  {
    var prev := OptionsOf(init, pollId);
    assert (init + [last])[..|init|] == init;
    if last.pollId == pollId {
      assert OptionsOf(init + [last], pollId) == prev + [last];
      assert (prev + [last])[..|prev|] == prev;
    } else {
      assert OptionsOf(init + [last], pollId) == prev + [];
      assert prev + [] == prev;
    }
  }

  /** The poll of an option id after one more option row, when the row's id is new. */
  lemma PollOfStep(init: seq<PollOption>, last: PollOption, optionId: int)
    requires forall i :: 0 <= i < |init| ==> init[i].id != last.id
    ensures PollOf(init + [last], optionId)
         == if last.id == optionId then Some(last.pollId) else PollOf(init, optionId)
  {
    PollOfAppend(init, [last], optionId);
    assert PollOf([last], optionId) == if last.id == optionId then Some(last.pollId) else None;
  }

  /**
   * With distinct option ids, an option id occurs once among the options of
   * a poll when it is an option of that poll, and not at all otherwise.
   */
  lemma {:induction false} OccurrencesInPoll(options: seq<PollOption>, pollId: int, optionId: int)
    requires DistinctIds(options)
    ensures Occurrences(OptionsOf(options, pollId), optionId) == if PollOf(options, optionId) == Some(pollId) then 1 else 0
  {
    if options != [] {
      var init := options[..|options| - 1];
      var last := options[|options| - 1];
      assert options == init + [last];
      assert DistinctIds(init) by {
        forall i, j | 0 <= i < j < |init| ensures init[i].id != init[j].id {
          assert init[i] == options[i] && init[j] == options[j];
        }
      }
      assert forall i :: 0 <= i < |init| ==> init[i].id != last.id by {
        forall i | 0 <= i < |init| ensures init[i].id != last.id {
          assert init[i] == options[i];
        }
      }
      OccurrencesInPoll(init, pollId, optionId);
      OccurrencesStep(init, last, pollId, optionId);
      PollOfStep(init, last, optionId);
      if last.id == optionId {
        assert PollOf(init, optionId).None?;
      }
    }
  }

  /**
   * With distinct option ids, the total of a poll is the number of votes in
   * the votes table cast on an option of that poll.
   */
  lemma {:induction false} TotalIsVotesOnPoll(options: seq<PollOption>, votes: seq<Vote>, pollId: int)
    requires DistinctIds(options)
    ensures TotalVotes(OptionsOf(options, pollId), votes) == |VotesOnPoll(options, votes, pollId)|
  {
    if votes == [] {
      TotalWithoutVotes(OptionsOf(options, pollId));
    } else {
      var init := votes[..|votes| - 1];
      var v := votes[|votes| - 1];
      assert votes == init + [v];
      TotalIsVotesOnPoll(options, init, pollId);
      TotalAfterVote(OptionsOf(options, pollId), init, v);
      OccurrencesInPoll(options, pollId, v.pollOptionId);
    }
  }

  /** One more vote raises each option's count by one when it points at that option. */
  lemma CountsAfterVote(poll: Poll, opts: seq<PollOption>, votes: seq<Vote>, v: Vote)
    ensures var before := ComputeResults(poll, opts, votes);
      var after := ComputeResults(poll, opts, votes + [v]);
      forall j :: 0 <= j < |opts| ==>
        after.results[j].votes == before.results[j].votes + (if opts[j].id == v.pollOptionId then 1 else 0)
  {
    forall j | 0 <= j < |opts| {
      VoteCountAfterVote(votes, v, opts[j].id);
    }
  }

  /** A vote pointing at none of the options leaves their result records as they were. */
  lemma ResultsIgnoreVote(opts: seq<PollOption>, votes: seq<Vote>, v: Vote, total: nat)
    requires forall j :: 0 <= j < |opts| ==> opts[j].id != v.pollOptionId
    ensures OptionResults(opts, votes + [v], total) == OptionResults(opts, votes, total)
  {
    var after := OptionResults(opts, votes + [v], total);
    var before := OptionResults(opts, votes, total);
    forall j | 0 <= j < |opts| ensures after[j] == before[j] {
      VoteCountAfterVote(votes, v, opts[j].id);
    }
  }

  /** With distinct option ids, no option of a poll carries an id whose poll is another one. */
  lemma OptionsOfOtherIds(options: seq<PollOption>, pollId: int, optionId: int)
    requires DistinctIds(options)
    requires PollOf(options, optionId) != Some(pollId)
    ensures forall j :: 0 <= j < |OptionsOf(options, pollId)| ==> OptionsOf(options, pollId)[j].id != optionId
  {
    var opts := OptionsOf(options, pollId);
    OptionsOfSound(options, pollId);
    forall j | 0 <= j < |opts| ensures opts[j].id != optionId {
      assert opts[j] in opts;
      var k :| 0 <= k < |options| && options[k] == opts[j];
      PollOfUnique(options, k);
    }
  }

  /**
   * Recording one vote raises the vote count of the option it points at by
   * one and the total by one when that option is one of the poll's; a vote
   * on another poll leaves the tally as it was.
   */
  lemma TallyAfterVote(poll: Poll, options: seq<PollOption>, votes: seq<Vote>, v: Vote)
    requires DistinctIds(options)
    ensures var opts := OptionsOf(options, poll.id);
      var before := ComputeResults(poll, opts, votes);
      var after := ComputeResults(poll, opts, votes + [v]);
      && after.totalVotes == before.totalVotes + (if PollOf(options, v.pollOptionId) == Some(poll.id) then 1 else 0)
      && (forall j :: 0 <= j < |opts| ==>
            after.results[j].votes == before.results[j].votes + (if opts[j].id == v.pollOptionId then 1 else 0))
      && (PollOf(options, v.pollOptionId) != Some(poll.id) ==> after == before)
  {
    var opts := OptionsOf(options, poll.id);
    var inPoll := PollOf(options, v.pollOptionId) == Some(poll.id);
    assert TotalVotes(opts, votes + [v]) == TotalVotes(opts, votes) + (if inPoll then 1 else 0) by {
      TotalAfterVote(opts, votes, v);
      OccurrencesInPoll(options, poll.id, v.pollOptionId);
    }
    CountsAfterVote(poll, opts, votes, v);
    if !inPoll {
      OptionsOfOtherIds(options, poll.id, v.pollOptionId);
      ResultsIgnoreVote(opts, votes, v, TotalVotes(opts, votes));
    }
  }
}
