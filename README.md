# Polling service: vote recording and tallies

A model of the write path of a small real-time polling service (`server.js`):
users register, create polls with at least two options, and cast at most one
vote per poll; after each vote the service recomputes the poll's tally and
broadcasts it to the poll's viewers, and the same tally is served by the
results query.

The relational store is replaced by four in-memory tables, kept as sequence
fields of a `Store` object in insertion order:

- users, keyed by email;
- polls;
- poll options, each tagged with its `pollId`;
- votes, as `(userId, pollOptionId)` rows.

The model assumes that ids are assigned by autoincrement and that rows are
never deleted, so the row at index `i` has id `i + 1`. The schema that
would declare this is not part of this model. No handler in server.js
deletes a row.

- `tables.dfy` (module `Tables`) holds the records, the handlers' error
  answers and the lookups the handlers run. `Message` gives each error's
  text, and `Status` gives its HTTP status: 404 for a missing poll and 400
  otherwise (server.js:29, 34, 79, 116, 122, 202). The scenarios check both
  against the handlers' answers. When several rows match, a lookup
  returns the first in table order. This is the model's choice, since
  `findFirst`/`findUnique` without `orderBy` promise no order. The module
  also holds the store
  invariant `WellFormed`:
  - ids follow insertion order;
  - emails are unique;
  - every option belongs to an existing poll;
  - every vote points at an existing option;
  - each (user, poll) pair has at most one vote across that poll's options
    (`OneVotePerUserPerPoll`).
- `tally.dfy` (module `Tally`) holds `ComputeResults`, the one pure function
  behind both the post-vote `pollUpdated` payload and the
  `GET /polls/:id/results` answer. The source repeats the same reduce/map
  code in both handlers (server.js:135-140 and server.js:204-209). The lemmas
  about the tally are in this module too.
- `store.dfy` (module `Server`) holds the class `Store` with the handlers:
  - `Register`, `CreatePoll` and `CastVote` are methods that modify the
    tables;
  - `GetResults` only reads them.

  Each handler runs its guards in the source's order. A failing guard
  returns an error and leaves every table unchanged. Otherwise the handler
  performs exactly one insert. Lemmas beside the class prove that each
  insert preserves `WellFormed`.
- `scenarios.dfy` (module `Scenarios`) holds clients of the store that go
  through worked examples using only the handlers' contracts:
  - a repeated registration;
  - a poll refused for too few options or for having no question;
  - two voters, and a second vote by the same voter that is refused;
  - a vote whose body names no option, counted for the option the model
    chooses, the poll's lowest-id option;
  - an option id that no option of the poll carries;
  - a results query for a missing poll.

Request-body fields are `Option`s: `None` is a field the body does not
carry. A field is truthy when the predicate `Present` holds: it is present
and not the empty string. JavaScript's `!x` test on a field is
`!Present(x)`.

The vote handler's option id also comes from the body, so it is an
`Option<int>`. The handler's lookup filters on the option id and the poll
id. A body without an option id leaves the id undefined, and the store
drops an undefined field from a filter. The lookup then matches every
option of the poll (`MatchesOption`). The store may then return any of
them, because `findFirst` at server.js:113 has no `orderBy`. The model
chooses the first in table order, which is the poll's option with the
smallest id (`FindOption`, `FindOptionIsFirst`, `ChosenOption`).

The percentage of an option is kept as an exact ratio:
- `Zero` when the poll has no votes (the source's `0`);
- otherwise `Share(votes, total)`, which the source prints as
  `votes / total * 100` with two decimals.

The source checks for a duplicate vote in the handler itself, with a
lookup followed by an insert. The handler does not rely on a uniqueness
constraint of the store. A constraint on the `(userId, pollOptionId)` row
could not express a (user, poll) rule anyway, because the poll is reached
only through the option. The model follows the handler and proves the
one-vote invariant for sequential execution. Likewise, a vote on a poll that does not exist fails
with `InvalidOption`, because no option matches it.

## Model

| member | source | states |
|---|---|---|
| Tables.FindUserByEmail | server.js:32-35 | finds a user exactly when some user has the email, and the user found has it |
| Tables.FindPoll | server.js:198-202 | finds a poll exactly when some poll has the id, and the poll found has it |
| Tables.FindOption | server.js:113-116 | finds an option exactly when some option row passes the filter (the poll id, and the option id when the body has one), and the option found passes it |
| Tables.FindOptionIsFirst | server.js:113-115 | the option found is the first row that passes the filter: no earlier row does |
| Tables.PollOf | server.js:120 | the poll of the option a vote points at is defined exactly when some option has that id |
| Tables.FindVoteOnPoll | server.js:119-122 | finds a vote exactly when the user has a vote on some option of the poll |
| Tables.MatchesOption | server.js:113-114 | the vote handler's option filter: the option belongs to the poll and, when the body has an option id, carries it; without one, the id is dropped from the filter |
| Tables.OptionsOf | server.js:130-133 | the poll's options, filtered from the option table in table order; it has at most as many rows as the table, and OptionsOfSound and OptionsOfComplete state its contents |
| Tables.OptionsOfSound | server.js:130-133 | a poll's options are option rows of that poll |
| Tables.OptionsOfComplete | server.js:130-133 | every option row of the poll is among the poll's options |
| Tables.OptionsOfAppend | server.js:86 | the options of a poll in a table extended by new rows are its old options followed by the new rows of that poll |
| Tables.PollOfAppend | server.js:81-89 | adding option rows does not change the poll of an option id already present |
| Tables.PollOfUnique | server.js:113-114 | with distinct option ids, the poll of an option id is the poll of the one option carrying it |
| Tally.VoteCount | server.js:138 | the number of votes on an option (`opt.votes.length`), at most the number of votes in the table |
| Tally.TotalVotes | server.js:135 | the reduce that sums the options' vote counts; at most options times votes, and TotalIsVotesOnPoll states exactly what it counts |
| Tally.ResultOf | server.js:136-140 | the record of one option: its text, its vote count, and a percentage that is zero exactly when the total is zero and otherwise its count over the total |
| Tally.ComputeResults | server.js:204-209 | the tally has the poll's question, one result per option in option order with that option's text and vote count, and a total equal to the sum of the results' counts; every percentage is zero when the total is zero and is count/total otherwise |
| Tally.OptionResults | server.js:205-209 | one result record per option, in option order, each built from that option |
| Tally.ResultsSumToTotal | server.js:204-207 | the result records' vote counts add up to the reduce over the options |
| Tally.PercentagesSumToWhole | server.js:208 | when a poll has votes, every percentage is a share of the total and the shares add up to the total (100 percent) |
| Tally.TotalIsVotesOnPoll | server.js:204 | the total is the number of rows in the votes table cast on an option of the poll |
| Tally.TallyAfterVote | server.js:125-138 | one more vote raises the chosen option's count by one and the total by one when the option is the poll's; a vote on another poll leaves the tally as it was |
| Tally.OccurrencesInPoll | server.js:113-120 | with distinct option ids, an option id occurs once among a poll's options when it belongs to that poll, and not at all otherwise |
| Server.RegisterKeepsWellFormed | server.js:32-39 | inserting a user with a new email and the next id keeps the store invariant, unique emails included |
| Server.NewOptions | server.js:86 | the option rows created for a new poll: one per input text, with that text, the poll's id and consecutive ids |
| Server.OptionsOfNewPoll | server.js:81-88 | the options of a newly created poll are exactly the created rows, in input order |
| Server.CreatePollKeepsWellFormed | server.js:81-89 | inserting a poll with the next id and its options with the next ids keeps the store invariant |
| Server.VoteKeepsWellFormed | server.js:112-127 | inserting a vote on an option of the poll by a user with no vote on that poll keeps the store invariant, so each (user, poll) pair still has at most one vote |
| Server.ChosenOption | server.js:109-116 | the option the vote handler picks belongs to the poll; it has the requested id, or, when the body has no option id, it is the poll's option with the smallest id, the model's choice where the source promises no order |
| Server.TallyOfRecordedVote | server.js:124-140 | after a vote is recorded the poll exists, its total is one more than before, and only the chosen option's count went up, by one |
| Server.Store.constructor | server.js:13 | the store starts with four empty tables and satisfies the invariant |
| Server.Store.Register | server.js:26-40 | a missing name, email or password gives "Invalid data" and an email already registered gives "User already exists", both with no change; otherwise one user with the next id is appended and nothing else changes; the invariant is kept |
| Server.Store.CreatePoll | server.js:75-90 | a missing question, missing options or fewer than two options gives the poll error with no change; otherwise one published poll owned by the caller is appended with one option per input text, in input order, which are exactly the poll's options; users and votes are unchanged and the invariant is kept |
| Server.Store.CastVote | server.js:106-150 | no option row passing the filter gives "Invalid option for this poll"; a user with a vote on the poll gives "User already voted"; both leave the tables unchanged. Otherwise the chosen option is the one with the requested id, or, when the body has none, the poll's lowest-id option (the model's choice of order). Exactly one vote (user, chosen option) is appended and the other tables are unchanged. The broadcast tally is ComputeResults of the poll over the new tables, with the total up by one and only the chosen option's count up by one. The invariant is kept |
| Server.Store.RecordVote | server.js:124-140 | the insert once both guards pass: one vote with the next id is appended, and the tally read back is ComputeResults of the poll over the new tables, with the total and the chosen option's count each up by one |
| Server.Store.GetResults | server.js:195-211 | "Poll not found" exactly when no poll has the id; otherwise the answer is ComputeResults of that poll, whose total is the number of votes on the poll's options |

## Left out

- Login (server.js:48-72): it compares passwords with bcrypt and signs a token, and both are foreign libraries. The model holds nothing else there.
- Store.Register: takes the bcrypt digest of the password as the parameter `passwordHash`, because hashing is a foreign call.
- The authentication guard (`./middleware/auth.js`) is not part of this model. The caller's user id is a given input.
- Foreign keys on `userId` and `creatorId` are not checked: the schema is not part of this model. The handlers store the caller id as given.
- The 500 answers (the `catch` blocks) are not modelled. The in-memory tables never fail, and the bodies that would make a handler throw are excluded by the parameter types (next two lines). Under the invariant, the poll lookup after a recorded vote always finds the poll.
- Express routing, CORS, body parsing, `parseInt` of route parameters, and the JSON response bodies (`message` texts, the user record echoed by register) are framework I/O. Route ids are integers, and body fields are optional.
- Store.CastVote: a body option id of another JSON type (a string, `null`) is not modelled. The store's query validation rejects it, which ends in the 500 answer (server.js:152-155). When the body has no option id, `findFirst` at server.js:113 has no `orderBy` and may return any option of the poll. The contract fixes the lowest-id option, which is the model's choice.
- Store.Register, Store.CreatePoll: body fields of another JSON type are not modelled. The parameters are `Option<string>` and `Option<seq<string>>`. A string `options` such as `"ab"` passes the length guard (server.js:78), and then `options.map` throws (server.js:86), giving the 500 at server.js:92-93. A non-string `question`, `name` or `email` fails the store's validation, giving the 500 at server.js:92-93 or 41-43.
- The percentage's floating-point division and `toFixed(2)` string: kept as an exact ratio. The source answers the number `0` or a two-decimal string.
- Socket.io (server.js:143-148, 219-237): `joinPoll` rooms, the `emit`, the unvalidated `voteCast` relay and disconnect logging belong to a library whose room semantics are not visible in the source. `CastVote` returns the `pollUpdated` payload instead of emitting it.
- GET /polls, GET /votes and GET /mypolls (server.js:98-103, 160-192) are plain queries with no logic beyond filtering.
- The race between the duplicate-vote lookup (server.js:119) and the insert (server.js:125) is a concurrency concern. The model is sequential.
- The order of a poll's options: Prisma's `include` without `orderBy` does not promise one. The model uses table (insertion, id) order.
- test-client.js is a network demo script with no logic to model.
