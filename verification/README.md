# A verified model of Den

Den is a Go document store over SQLite and PostgreSQL. This project models its algorithmic core in Dafny
and proves what that core is for. `dafny verify dfyconfig.toml` checks everything.

| Part of Den | Files |
|---|---|
| Condition compiler: a tree of conditions printed as flat WHERE text, parsed back by SQL precedence and evaluated in three-valued logic | `Where`, `Logic3`, `SqlGrammar`, `ConditionSql`, `ConditionParse`, `ConditionNumbering`, `ConditionMeaning`, `Polarity`, `WhereClause`, `WhereRuns` |
| String encoders for LIKE and FTS5 | `LikePattern`, `LiteralFts5` |
| Migration runner, first run alone, then interleaved with others | `Migrate`, `MigrateProtocol`, `MigratePrefix`, `MigrateLate`, `MigrateBound` |
| Revision checks, first the code, then many clients | `Revision`, `RevisionProtocol` |
| Document ids | `Radix`, `ByteWindows`, `Ulid`, `UlidGenerator` |
| Batched link hydration against per-slot resolution, and what it costs | `Hydration`, `HydrationView`, `HydrationCost`, `HydrationPromise`, `LinkBatch`, `PerSlot` |
| Chunked delete against one pass | `ChunkedDelete` |
| Row locks of FOR UPDATE queries | `LockOrder` |
| Maintenance of the FTS5 index | `FtsIndex` |
| Walks over Go types | `TypeGraph`, `CollectFields` |
| Link-expanding JSON | `LinkEncoding`, `LinkContent`, `Marshal`, `MarshalExamples` |
| Shared by several parts | `Options`, `StringOrder` |

## How to read the model

**Conditions.** `Interprets` in `ConditionMeaning` says, for the leaves that occur in a condition and no others, which SQL
form must compute an operator for it to mean what its name says. It is the only assumption about the databases. Dropped
clauses, parentheses, precedence, placeholder numbers and which argument reaches which placeholder are all proved. The text
is a sequence of tokens; a predicate head such as `json_extract(data,'$.a') =` is one token that carries its operator and
path. `Not(a) ...`, joined ContainsAll and nested groups are parsed by a separate SQL parser that knows nothing of the
compiler. For each operator `WhereRuns` says, without that assumption, which predicate runs on which arguments; for And, Or, Not
and whole queries it says what they give in terms of their parts as queries of their own.

The backends do not always mean the same by a leaf: on a row that lacks the field, PostgreSQL's containment form of
Eq is false where SQLite's `=` is NULL, and Contains is NULL on PostgreSQL where it is false on SQLite.
`WhereClause.BackendsAgree` speaks of queries whose own leaves mean the same on both, `WhereClause.SelectionsAgree` of leaves
that differ only where a WHERE clause cannot tell (`Polarity` proves that nothing less will do), and two lemmas show the
queries that select different rows. SQLite's LIKE ignores ASCII case, PostgreSQL's does not: the LIKE results hold for any
character equality.

**Protocols.** Migration starters, clients of revisioned documents, and locking transactions are state machines. A run is
any sequence of steps by any participants; the results speak of every reachable state. `newRevision` draws a revision
that was never drawn before for the document; write transactions exclude one another. The steps of `RevisionProtocol` that
write are tied to `Revision` by methods that run its code from the state before the step.

**Bytes.** `Ulid.Encode` works on numbers below 256 and divides. `ByteWindows` does the sixteen masks and shifts of the random part
on 8-bit vectors, and `Ulid.EncodeBytes`, built from them, is proved to return what `Encode` does. The ten timestamp shifts of
a 64-bit word are written as divisions in both.

**Addresses.** Hydration works on an explicit heap: documents have addresses, a link slot is a location inside one document,
and pointers may be shared. Distinct slots have distinct locations, so two parents never share one slice of links.
`PerSlot` is the reference: it resolves one link after another by the code's single-link path and repeats that on each target;
the code itself follows that path for one level only.

**Proofs.** Every lemma is marked `{:induction false}`: no proof rests on induction that the verifier adds on its own.

**Open choices.** Where SQL leaves an order open (rows of an IN query, ties of a sort, iteration over a Go map) the model makes a
nondeterministic choice and the results hold for all of them.

## Where the code and its comments differ

* `engine/link_batch.go:18-24` says that dangling links leave their slots untouched without an error; the code at lines 127-136
  returns a DanglingLinkError. The model does what the code does: success exactly when every link resolves.
* `engine/link_batch.go:11-16` promises one query per level and target type; the code resolves the targets of each field on their
  own. `LinkBatch.Hydrator.BatchResolveLinks` gives the exact queries, by level and type. For each schema, mode, root type and
  depth, `HydrationPromise.PromiseIffPathsApart` proves that the promise holds, whatever is stored, exactly when no two equally
  long paths of hydrated fields end in the same type, and `HydrationPromise.ProductIffFewPaths` the same for the total, levels
  times target types. `HydrationCost.SixQueries` is a call that takes six queries where that allows two. How many parents there
  are does not matter.
* `engine/link_batch.go:138-142` says that named hydration is scoped to one level; the code passes the same names down.
  `HydrationCost.EndsAtFirstLevelIff` proves that it stops after one level exactly when no hydrated field points at a type with
  a hydrated field, and `HydrationCost.NamedReachesDeeper` gives two types for which it does not.
* `engine/marshal.go:15-20` says that any loaded link anywhere in the value graph is expanded. Links in some places that
  encoding/json does emit are not: below an unexported embedded struct, with a json name or without; in an embedded value that
  is no struct and has no json name; in what an interface inside the value holds; in a map whose keys are not strings; in a
  field whose tag holds a name that encoding/json does not accept. `Marshal.MarshalAny` proves that for values without a
  custom marshaller or a repeated key these are all, and `MarshalExamples.EveryPlaceMisses` gives types and a value for each.
* `backend/sqlite/fts.go:50-54` relies on the triggers being current; they and the columns keep the field list of the first
  registration, so a field tagged fts later is not indexed. `FtsIndex.CompleteIffFieldsAreColumns` proves that a later
  registration is covered exactly when its fields are among the first ones, and `FtsIndex.NewFieldIsNotSearched` is an instance.
* An empty value list in In, NotIn or ContainsAny is a syntax error on PostgreSQL and fine on SQLite; an empty ContainsAll is
  dropped on both. The main results say exactly when the backends part.
* `backend/postgres/sql.go:80-97` orders locking by id so that queries cannot deadlock; a sort takes the place of that order.
  `LockOrder.NeverStuckIffOrdersAgree` says which queries can be sorted without losing it.
* In-memory revisions and timestamps change before the put, so they stay changed when the put or the commit fails.

## Model

| member | source | states |
|---|---|---|
| `Where.SanitizeFieldName` | internal/util/sql.go:7-16 | the loop keeps exactly the safe runes, in order |
| `Where.SanitizedIsSafe` | internal/util/sql.go:5-16 | only safe characters reach a JSON path, and a name is left alone exactly when it is made of them |
| `Where.SanitizedCharacter` | internal/util/sql.go:5-16 | character by character: letters, digits, underscores and dots stay in order, everything else goes |
| `Where.KeptIffSomePredicate` | backend/postgres/sql.go:300-307 | a tree is compiled to something exactly when some field predicate in it is neither a comparison with a field by an operator that does not compare nor a ContainsAll without values |
| `ConditionSql.EmptyIffDropped` | backend/postgres/sql.go:273-298 | a tree prints as nothing exactly when no leaf below it is kept, and then uses no argument and no placeholder number |
| `ConditionParse.FieldParses` | backend/postgres/sql.go:300-386 | the text of a leaf, ContainsAll included, parses to its expression in any context that an AND-joined item can stand in |
| `ConditionParse.ClauseParses` | backend/postgres/sql.go:427-449 | the text of any tree, wrapped or under NOT, parses under NOT over AND over OR to the expression the tree stands for |
| `ConditionNumbering.PlaceholdersAreConsecutive` | backend/postgres/sql.go:273-378 | a tree compiled from n emits $n, $n+1, ... once each, left to right, one per argument, and returns n plus their number |
| `ConditionNumbering.GroupPlaceholders` | backend/postgres/sql.go:427-449 | the same for a list of conditions with dropped ones among them |
| `ConditionNumbering.NumbersClause` | backend/sqlite/sql.go:258-350 | numbering SQLite's anonymous placeholders from n gives PostgreSQL's text from n, with the same arguments in the same order for the same dialect choices |
| `ConditionMeaning.FieldEvaluates` | backend/postgres/sql.go:300-386 | a compiled leaf evaluates, on the arguments its placeholders reach, to the meaning of its operator |
| `ConditionMeaning.RejectedIffEmptyList` | backend/postgres/sql.go:331-356 | a compiled tree is a syntax error exactly on PostgreSQL with an empty list somewhere in it |
| `ConditionMeaning.ConditionEvaluates` | backend/postgres/sql.go:273-298 | a compiled tree evaluates to AND, OR and NOT over its kept children |
| `WhereClause.ConditionToSQL` | backend/postgres/sql.go:273-298 | the recursive compiler computes the clause that the results above speak of |
| `WhereClause.LogicalToSQL` | backend/postgres/sql.go:427-449 | the loop joins the wrapped clauses that are not empty and threads the placeholder number |
| `WhereClause.BuildWhereClauses` | backend/postgres/sql.go:207-222 | the loop collects the wrapped clauses of all top-level conditions |
| `WhereClause.AppendCursorClauses` | backend/postgres/sql.go:224-235 | id bounds follow with the next placeholder numbers |
| `WhereClause.BuildWhere` | backend/sqlite/sql.go:101-111 | the whole clause, search term first, conditions, then bounds |
| `WhereClause.StatementPlaceholders` | backend/postgres/sql.go:207-235 | over a whole statement the placeholders are $1 to $k without a gap, one per argument; SQLite's take the same numbers |
| `WhereClause.WhereMeansConjunction` | backend/postgres/sql.go:207-235 | running the built text on any row gives the conjunction of the search term, every kept condition and both bounds, except that PostgreSQL rejects it exactly when a list is empty |
| `WhereClause.BackendsAgree` | backend/sqlite/sql.go:241-256 | where the two backends mean the same by the query's own leaves and bounds, they give the row the same truth value exactly when no list is empty |
| `WhereClause.SelectionsAgree` | backend/sqlite/sql.go:241-256 | they select the same rows already if leaves under an even number of NOTs are true on both or on neither, and leaves under an odd number are false on both or on neither |
| `Polarity.ToleratesIffHarmless` | backend/sqlite/sql.go:241-256 | for trees without a repeated leaf these are the only differences that selection tolerates: any other pair of values for a leaf shows under some values of the others |
| `Polarity.ValueIsMeaning` | backend/postgres/sql.go:273-298 | the value such a tree has by its leaves' values is the meaning its clause evaluates to |
| `WhereClause.NegatedEqualityDiverges` | backend/postgres/sql.go:312-315 | otherwise they need not: where containment is false and `=` is NULL, a negated equality selects the row on PostgreSQL only |
| `WhereClause.NegatedContainsDiverges` | backend/sqlite/sql.go:324-325 | where membership is NULL on PostgreSQL and false on SQLite, a negated Contains selects the row on SQLite only |
| `WhereRuns.ComparisonRuns` | backend/postgres/sql.go:310-326 | a query of one comparison runs that comparison on exactly its own argument; a top-level scalar Eq runs as containment on PostgreSQL |
| `WhereRuns.TestRuns` | backend/postgres/sql.go:327-368 | null tests, membership of one value and regular expressions likewise |
| `WhereRuns.KeyRuns` | backend/sqlite/sql.go:340-342 | HasKey asks for the key by name, on SQLite by the sanitized path below the field; a value that is no string asks for the empty name there |
| `WhereRuns.FieldComparisonRuns` | backend/postgres/sql.go:304-308 | a comparison with another field runs on both paths without an argument; another operator filters nothing |
| `WhereRuns.MembershipRuns` | backend/postgres/sql.go:331-346 | In and NotIn run on the list of their values in order; PostgreSQL rejects them without any |
| `WhereRuns.AllElementsRun` | backend/postgres/sql.go:357-364 | ContainsAll is true exactly when the membership test of every value is |
| `WhereRuns.AnyElementRuns` | backend/postgres/sql.go:349-356 | ContainsAny on PostgreSQL is true exactly when that of some value is |
| `WhereRuns.ElementInRuns` | backend/sqlite/sql.go:326-331 | ContainsAny on SQLite runs one test on the list of its values in order |
| `WhereRuns.TextRuns` | backend/postgres/sql.go:369-374 | StartsWith, EndsWith and StringContains select a text exactly when the string is its prefix, its suffix, or a slice of it |
| `WhereRuns.AndRuns` | backend/postgres/sql.go:427-449 | And is true when every kept condition would be as a query of its own, and false when one would be false |
| `WhereRuns.OrRuns` | backend/postgres/sql.go:427-449 | Or is true when one of them would be, and false when all would be false |
| `WhereRuns.NotRuns` | backend/postgres/sql.go:288-295 | Not exchanges true and false and leaves NULL |
| `WhereRuns.QuerySelects` | backend/postgres/sql.go:207-235 | a query selects a row exactly when the search term, every kept condition as a query of its own, and both id bounds are true on it |
| `LikePattern.EscapeLikeIsOnePass` | internal/util/sql.go:30-35 | the three replacement passes equal one pass that escapes each special character once |
| `LikePattern.EscapedMatchesLiterally` | internal/util/sql.go:30-35 | an escaped string matches only itself, whatever pattern follows |
| `LikePattern.StartsWithPattern` | backend/postgres/sql.go:369-370 | the StartsWith pattern matches exactly the texts with that prefix |
| `LikePattern.EndsWithPattern` | backend/postgres/sql.go:371-372 | the EndsWith pattern matches exactly the texts with that suffix |
| `LikePattern.ContainsPattern` | backend/postgres/sql.go:373-374 | the StringContains pattern matches exactly the texts that contain the string |
| `LikePattern.OccursIsSlice` | backend/postgres/sql.go:369-374 | where characters compare exactly, occurring at a place is being a slice of the text |
| `LiteralFts5.LiteralFTS5` | search/search.go:33-44 | the builder loop renders the tokens of the term |
| `LiteralFts5.FieldsAreTokens` | search/search.go:33-36 | tokens are not empty and hold no white space; there are none exactly when the term is blank |
| `LiteralFts5.FieldsAreRuns` | search/search.go:33-36 | a word up to the next white space, or to the end, is one token, and white space is none |
| `LiteralFts5.FieldsKeepEveryCharacter` | search/search.go:33-36 | splitting loses and invents nothing but white space |
| `LiteralFts5.LiteralTermsOnly` | search/search.go:22-44 | read by FTS5's rules for quoted strings the output is exactly the tokens of the term in order; it is empty exactly when the term is blank |
| `StringOrder.LessTotal` | migrate/migrate.go:99-109 | of two different version strings exactly one comes first, and none comes before itself |
| `Migrate.FilterInPlace` | migrate/migrate.go:283-288 | the in-place compaction keeps exactly the other versions, in order |
| `Migrate.WithoutEntry` | migrate/migrate.go:283-288 | entry by entry: the version goes, every other entry stays where it was among the rest |
| `Migrate.Registry.Register` | migrate/migrate.go:101-109 | the registry stays sorted and gains exactly the new migration |
| `Migrate.Registry.RunForward` | migrate/migrate.go:211-250 | an applied version is skipped; otherwise the data becomes what Forward makes of it and the version is logged, whether or not there is a Backward, or nothing changes |
| `Migrate.Registry.RunBackward` | migrate/migrate.go:252-294 | a version not in the log is skipped; otherwise the data becomes what Backward makes of it and every entry of the version leaves the log, or nothing changes |
| `Migrate.Registry.Up` | migrate/migrate.go:117-130 | exactly the migrations run, in order, whose version is neither logged nor registered earlier, up to the first failure; the data is the composition of their Forwards, the log gains their versions, and the migration named in the error fails on that data |
| `Migrate.Registry.UpOne` | migrate/migrate.go:135-151 | the first migration whose version is not logged runs and no other: data and log change by it, or nothing changes |
| `Migrate.Registry.DownOne` | migrate/migrate.go:157-178 | the Backward registered first for the last log entry takes the data back and the entry goes, or nothing changes and the error says whether the version is unknown, has no Backward or failed |
| `Migrate.Registry.Down` | migrate/migrate.go:183-203 | over a log without duplicates the entries go from its end, the data is the composition of the Backwards registered for them, and the entry that stopped it is unknown, has no Backward, or fails on that data |
| `Migrate.UpAppliesPending` | migrate/migrate.go:113-130 | Up appends exactly the pending versions of an initial part of the registry, all of it when it succeeds, and otherwise reports the first that failed |
| `Migrate.DownEmptiesLog` | migrate/migrate.go:180-203 | Down removes versions from the end in exact reverse order, and succeeds exactly when the log is empty afterwards |
| `Migrate.RollbackUndoesUp` | migrate/migrate.go:117-203 | if each Backward undoes its Forward, rolling back what Up added restores the state it started from, also when Up stopped early |
| `Migrate.UpThenDown` | migrate/migrate.go:117-203 | Up from an empty log and then Down runs the Backwards in exact reverse order and restores the data |
| `MigrateProtocol.AnyInterleavingBalances` | migrate/migrate.go:211-294 | under any interleaving of all four calls no version is logged twice, and committed Forwards minus Backwards of a version is 1 if logged and 0 if not |
| `MigrateProtocol.ConcurrentUpsApplyOnce` | migrate/migrate.go:117-151 | under any interleaving of Up and UpOne, stale reads included, the log stays a prefix of the registry, each Forward commits at most once and in order, and once any Up has succeeded every version has committed exactly once |
| `MigrateLate.LateVersionsAreApplied` | migrate/migrate.go:113-151 | over any log without duplicates, also one that lacks a version registered late: the log only grows, each Forward commits at most once and none that was logged, and once any Up has succeeded every registered version is logged |
| `MigrateProtocol.ConcurrentDownsRollBackOnce` | migrate/migrate.go:157-203 | under any interleaving of Down and DownOne each Backward commits at most once, in reverse order, and once any Down has succeeded the log is empty |
| `MigrateProtocol.SomeoneCanStep` | migrate/migrate.go:211-250 | the advisory lock never wedges the runners: while a call is unfinished some call can go on |
| `MigrateBound.EveryCallEnds` | migrate/migrate.go:113-294 | and no call takes more than 7(versions + log entries) + 2 steps in any run, whatever the others do |
| `MigrateProtocol.UndisturbedJobCommits` | migrate/migrate.go:211-250 | a starter that meets a free lock can begin, lock, read, run, save and commit, and then has appended or removed exactly its version |
| `MigratePrefix.StaleRollbackLeavesGap` | migrate/migrate.go:117-203 | mixing directions loses the prefix property: for each upward and each downward call a run after which only the second of two versions is logged |
| `MigratePrefix.PrefixKeptIffOneDirection` | migrate/migrate.go:117-203 | over every run of every configuration from any prefix log, a set of calls keeps the log a prefix of the registry if and only if it is all upward or all downward |
| `Revision.CheckAndUpdateRevision` | engine/revision.go:44-76 | the exact check, keyed off the id, and the new revision in memory exactly when it passes |
| `Revision.SetBaseFields` | engine/crud.go:163-185 | id and timestamps, a creation time set by the caller kept |
| `Revision.WriteDocCore` | engine/crud.go:77-129 | hooks, check, stamp, put and after-hooks in that order, with the error of the first that fails; a success stores the document, whose revision is the drawn one where revisions are used and of which nothing else changes but the timestamps |
| `Revision.UpdateCore` | engine/crud_save.go:73-103 | the exact error; a success stores the document with the drawn revision and the update time and leaves body, creation time and deletion alone; outside a transaction any error of a checked update leaves the store alone |
| `Revision.Save` | engine/crud_save.go:18-28 | a document without an id is inserted, any other updated: for both the exact error, every field after a success, and the store after an error |
| `Revision.SoftDelete` | engine/soft_delete.go:72-105 | the exact error; a success stores the document with the drawn revision, the time and the audit fields given, and leaves body and timestamps alone; any error leaves the store alone |
| `Revision.TwoWriters` | engine/revision.go:65-74 | of two writers that loaded one row the first is stored and the second refused with the revision conflict |
| `Revision.DeletedMeanwhile` | engine/soft_delete.go:62-67 | a writer that loaded a row before it was soft-deleted is refused and the deletion stays |
| `RevisionProtocol.CommittedWritesFormChains` | engine/revision.go:44-76 | in every run each committed write replaced exactly the version its writer had loaded, so the committed versions of a document form one chain that ends in the stored one |
| `RevisionProtocol.AtMostOneWriterPerBase` | engine/crud_save.go:73-103 | of the clients sharing a base version at most one commits |
| `RevisionProtocol.StaleSaveNeverClearsDeletion` | engine/soft_delete.go:62-105 | whoever writes after a committed deletion had loaded that deletion or something later |
| `RevisionProtocol.PassedCheckMeansUnchanged` | engine/revision.go:44-76 | a client loads a document; whatever happens in between, when the stored revision is the one in its memory the stored row is field for field the row that it loaded |
| `RevisionProtocol.SaveIsStep` | engine/crud_save.go:73-103 | the protocol's step of a Save in a transaction leaves the rows, document and refusal that `Revision.Save` does |
| `RevisionProtocol.SoftDeleteIsStep` | engine/soft_delete.go:72-105 | the same for a soft delete |
| `RevisionProtocol.InsertIsStep` | engine/crud_save.go:52-71 | the same for a document without an id |
| `RevisionProtocol.SaveAloneIsThreeSteps` | engine/crud_save.go:80-91 | a Save outside a transaction is the step within one of its own, committed exactly when there is no error |
| `Ulid.IndicesValue` | idgen/ulid.go:108-140 | the 26 alphabet positions are the base-32 digits of the timestamp's low fifty bits followed by the eighty random bits |
| `Ulid.EncodeKeepsOrder` | idgen/ulid.go:108-140 | ids compare as strings exactly as their (timestamp, randomness) pairs compare as numbers |
| `Ulid.EncodeInjective` | idgen/ulid.go:108-140 | different pairs have different ids |
| `Ulid.EncodeIsId` | idgen/ulid.go:29 | an id is 26 characters of the alphabet |
| `Ulid.AlphabetIsCrockford` | idgen/ulid.go:28-29 | the alphabet is the digits and the capital letters without I, L, O and U |
| `Ulid.HalvesOfId` | idgen/ulid.go:108-140 | the first ten characters read the timestamp's low fifty bits in base 32, the other sixteen the randomness |
| `Ulid.EncodeInvertsDecode` | idgen/ulid.go:108-140 | every 26 characters of the alphabet are the encoding of what they decode to |
| `Ulid.DecodeInvertsEncode` | idgen/ulid.go:108-140 | decoding recovers the randomness and the timestamp up to fifty bits |
| `ByteWindows.Window0` | idgen/ulid.go:122 | the mask and shift is the top five bits of the first byte, as a number |
| `ByteWindows.Window1` | idgen/ulid.go:123 | the or-ed masks and shifts are the five bits across the border of the first and second byte, as a number |
| `ByteWindows.Window2` | idgen/ulid.go:124 | the mask and shift is the middle window of the second byte, as a number |
| `ByteWindows.Window3` | idgen/ulid.go:125 | the or-ed masks and shifts are the window across the second and third byte, as a number |
| `ByteWindows.Window4` | idgen/ulid.go:126 | the or-ed masks and shifts are the window across the third and fourth byte, as a number |
| `ByteWindows.Window5` | idgen/ulid.go:127 | the mask and shift is the middle window of the fourth byte, as a number |
| `ByteWindows.Window6` | idgen/ulid.go:128 | the or-ed masks and shifts are the window across the fourth and fifth byte, as a number |
| `ByteWindows.Window7` | idgen/ulid.go:129 | the mask and shift is the last five bits, as a number |
| `Ulid.EncodeBytes` | idgen/ulid.go:108-140 | ten bytes cut with masks and shifts spell what the numbers of those bytes encode to |
| `UlidGenerator.Generator.New` | idgen/ulid.go:55-74 | the stored time becomes the later of itself and the clock; a newer clock takes exactly the seed bytes, otherwise the step is added if it fits and exactly the second seed taken if not; the id's two halves read that time and randomness |
| `UlidGenerator.AddRandStep80` | idgen/ulid.go:88-102 | the carry loop adds the step (a zero draw counts as one) modulo 2^80 and says whether it wrapped |
| `UlidGenerator.CallAdvances` | idgen/ulid.go:55-74 | the state moves forward on every call except an overflow whose new seed is not higher |
| `UlidGenerator.RunAdvances` | idgen/ulid.go:55-74 | over any run with any clock the pair increases while no call overflows |
| `UlidGenerator.IdsAscend` | idgen/ulid.go:1-19 | each id is greater than every earlier one since the last overflow, clock rewinds included |
| `UlidGenerator.Issue` | idgen/ulid.go:55-74 | of the ids that any number of calls return, each is greater than every earlier one unless a call in between overflowed, each reads the latest of the start and all clock readings so far, and the seed of its own call where its reading is the newest |
| `UlidGenerator.NoOverflowWithin` | idgen/ulid.go:60-102 | from randomness s no draw overflows within n calls if n largest steps still fit |
| `UlidGenerator.SafeCalls` | idgen/ulid.go:88-102 | that is at least floor((2^80 - 1 - s) / (2^32 - 1)) calls |
| `UlidGenerator.BoundIsTight` | idgen/ulid.go:88-102 | one call more can overflow |
| `Hydration.LoadsThen` | engine/link_batch.go:113-116 | loading some slots and then others is loading both, whatever was allocated in between |
| `Hydration.LoadsDeeper` | engine/link_batch.go:138-145 | hydrating the loaded targets themselves hydrates the parents one level further |
| `Hydration.ResolvesDeeper` | engine/link_fetch.go:96-137 | a link resolves d levels down exactly when its row is there and its own wanted links resolve d - 1 levels down |
| `Hydration.LoadsWhatTheModeTakes` | engine/link_reflect.go:26-31 | by schema and store alone: a pending slot of a default-mode call is loaded exactly if its field is eager, of other modes if it is named or always or never; it points at a new document of the field's target type with the stored links; every other slot is as it was |
| `Hydration.ResolvesByMode` | engine/link_reflect.go:26-31 | a link resolves exactly when its row is there and, with levels left, the links of the fields that the mode takes resolve |
| `Hydration.OneTargetLoads` | engine/link_batch.go:108-118 | decoding one row and storing its address in a group of slots loads exactly those slots |
| `HydrationView.HydratedView` | engine/link_fetch.go:96-137 | a hydrated document shows exactly the value tree that per-slot recursion over the stored rows builds |
| `HydrationView.LoadedValues` | engine/link_batch.go:27-159 | after a success every due slot shows its target's per-slot tree, so sharing and order cannot be told from values |
| `LinkBatch.Hydrator.BatchResolveLinks` | engine/link_batch.go:27-56 | succeeds exactly when per-slot recursive resolution of every wanted pending link does; then loads exactly the slots that eager flags, names and mode say (`Hydration.LoadsByMode`), hydrated to the depth, shares one pointer per id within a field, and has made exactly the queries that the distinct ids of each level call for, counted by level and type; on failure too only wanted pending slots can have changed, and never more than k + k^2 + ... + k^depth queries were made; an error names a collection or row that is not there, or a row that does not decode |
| `LinkBatch.Hydrator.BatchResolveField` | engine/link_batch.go:61-148 | the same for one link field of all parents with one query of its own |
| `LinkBatch.Hydrator.CollectSlots` | engine/link_batch.go:62-74 | every wanted pending slot is filed under its id and no other |
| `LinkBatch.Hydrator.LoadTargets` | engine/link_batch.go:80-136 | every group is filled from its row, or the id reported has no usable row |
| `LinkBatch.Hydrator.ResolveSingleLink` | engine/link_fetch.go:96-137 | one link loaded from one read, or nothing changed |
| `LinkBatch.TargetsDecide` | engine/link_batch.go:138-145 | the links of the loaded targets resolve exactly when the parents' links resolve one level further |
| `HydrationCost.NewDocumentsAsk` | engine/link_batch.go:11-16 | what the next level costs is decided by the distinct rows loaded, not by how many parents or slots there are |
| `HydrationCost.CallWithin` | engine/link_batch.go:38-56 | with at most k link fields per type a call costs at most k + k^2 + ... + k^depth queries |
| `HydrationCost.BoundIsReached` | engine/link_batch.go:38-56 | and exactly that many for one document of a type with k links to itself |
| `HydrationPromise.PromiseIffPathsApart` | engine/link_batch.go:11-16 | for each schema, mode, root type and depth: every successful call asks each collection at most once per level, whatever is stored, exactly when no two equally long paths of hydrated fields end in the same type |
| `HydrationPromise.ProductIffFewPaths` | engine/link_batch.go:11-16 | every successful call stays within levels times reachable target types exactly when the number of those paths does |
| `HydrationPromise.OneWayIffApart` | engine/link_batch.go:38-56 | a level asks a collection twice exactly when two different paths lead there |
| `HydrationPromise.CompleteAsksAll` | engine/link_batch.go:38-148 | a store in which every field holds a link is asked once for every path |
| `HydrationCost.SixQueries` | engine/link_batch.go:11-16 | two links to the type itself and two levels take six queries |
| `HydrationCost.EndsAtFirstLevelIff` | engine/link_batch.go:138-142 | hydration stops after its first level, whatever is stored, exactly when no hydrated field points at a type that has a hydrated field |
| `HydrationCost.NamedReachesDeeper` | engine/link_batch.go:138-142 | two types sharing a field name for which named hydration does not stop |
| `PerSlot.ResolveEach` | engine/link_fetch.go:84-137 | link after link with one read each and every target hydrated in its turn: the outcome is the one the batched form has |
| `PerSlot.ResolveDeep` | engine/link_fetch.go:96-137 | one link and d levels below it |
| `ChunkedDelete.QuerySet.RowsLeaveUnlessIncluded` | engine/queryset.go:815-822 | a deleted row leaves the match set exactly when the delete is hard, the collection has no soft delete, the query excludes deleted rows, or its conditions hold of no deleted row |
| `ChunkedDelete.QuerySet.Chunks` | engine/queryset.go:594-649 | the loop deletes, round by round, the first rows of what then matches, as many as a chunk or the rest of the limit allows, until the limit is reached or a round is not full; a failing row stops it |
| `ChunkedDelete.QuerySet.TargetReached` | engine/queryset.go:563-586 | where deleted rows leave the match set, or the matches or the limit fit one chunk, that is the first min(limit, matches) rows of the ordered match set, all of them without a limit, for every chunk size of at least one |
| `ChunkedDelete.QuerySet.RowsLeft` | engine/crud_delete.go:69-95 | what rounds leave: after a hard delete exactly the other rows, after a soft delete all rows; the others as they were, a row of one round marked and stamped once |
| `ChunkedDelete.QuerySet.GoneInSomeRound` | engine/queryset.go:594-649 | the rows deleted in the end are those of some round |
| `ChunkedDelete.QuerySet.FirstOnesGo` | engine/queryset.go:563-586 | where rows leave: the first rows, in order, of those the conditions hold of and that are not filtered out as deleted, min(limit, all) of them, each counted once |
| `ChunkedDelete.QuerySet.RoundSizes` | engine/queryset.go:594-649 | no round takes more rows than a chunk, and every round but the last takes a full one |
| `ChunkedDelete.QuerySet.Delete` | engine/queryset.go:587-656 | a success leaves exactly the other rows if the delete is hard and the same ids, marked, if it is soft; the count adds up the rounds; an error returns 0 and, outside a caller's transaction, leaves the table as it was; without a limit it fails exactly when some matching row does and otherwise deletes every matching row; where one pass would do, one pass is what it amounts to |
| `ChunkedDelete.QuerySet.Query` | engine/queryset.go:798-813 | a query with a limit returns that many first rows of the order, ties as the backend likes |
| `ChunkedDelete.QuerySet.DeleteRow` | engine/crud_delete.go:69-95 | a hard delete drops the row and a soft one marks and stamps it, no other row changes, and nothing does if a before-hook, decoding or the write fails; if only an after-hook fails the row is gone all the same |
| `ChunkedDelete.QuerySet.OutcomeIsUnique` | engine/queryset.go:563-586 | without ties the rows deleted depend neither on chunking nor on the backend |
| `ChunkedDelete.QuerySet.IncludedRowsStay` | engine/queryset.go:815-822 | after any number of full chunks the rows that still match when soft-deleted are all there, and the others have become fewer with each round if those do not fill a chunk |
| `ChunkedDelete.QuerySet.NeverEndsIffStayingFillAChunk` | engine/queryset.go:594-649 | without a limit or failures the loop can go on for ever if and only if the rows that stay fill a chunk; otherwise it ends within as many rounds as there are matches |
| `ChunkedDelete.QuerySet.IncludedLoopEndsIffUnderAChunk` | engine/queryset.go:815-822 | for soft deletes under IncludeDeleted whose conditions do not look at the deletion that is: if and only if there is a full chunk of matches |
| `ChunkedDelete.QuerySet.IncludedCount` | engine/queryset.go:601-645 | with a limit, where every deleted row goes on matching, the count runs up to the limit over and over the same rows; it is the number that one pass would delete if and only if the matches do not fill a chunk or the limit is no larger than they are |
| `LockOrder.NoCycle` | backend/postgres/sql.go:91-97 | if all lock in ascending order of one rank no transaction waits for itself through others |
| `LockOrder.SomeoneCanProceed` | backend/postgres/sql.go:91-116 | while anyone is unfinished someone unfinished can go on |
| `LockOrder.HeldUpOnlyByLocks` | backend/postgres/sql.go:105-116 | a transaction is held up exactly while its query blocks and another unfinished one has locked the row it needs next |
| `LockOrder.OrdersReturned` | backend/postgres/sql.go:80-97 | a locking query without a sort returns its rows by ascending id, a sorted one in any order of its key, and nothing else is ruled out |
| `LockOrder.UnsortedLockingIsLive` | backend/postgres/sql.go:80-116 | transactions with one locking query each and no sort, in any lock modes and any interleaving: rows are never held twice, no cycle, runs are bounded, and a run that cannot go on has finished everyone |
| `LockOrder.SortedLockingCanDeadlock` | backend/postgres/sql.go:80-91 | with a sort the guarantee is gone: a run of two queries that ends in a deadlock |
| `LockOrder.NeverStuckIffOrdersAgree` | backend/postgres/sql.go:80-116 | blocking queries, sorted or not, never reach a stuck state on any rows in any interleaving if and only if no two of them may return two rows in opposite orders |
| `LockOrder.OppositeOrdersDeadlock` | backend/postgres/sql.go:80-91 | any two that may do so have a run that ends in a circular wait |
| `FtsIndex.Backend.EnsureFTS` | backend/sqlite/fts.go:23-92 | a found table only has its triggers made sure of; otherwise creation is all or nothing |
| `FtsIndex.Backend.FirstCreation` | backend/sqlite/fts.go:56-92 | whichever statement fails, or if another registration came first, no trace is left; success indexes every row already there |
| `FtsIndex.Backend.Backfill` | backend/sqlite/fts.go:80-90 | every existing row is indexed once |
| `FtsIndex.Backend.Put` | backend/sqlite/sqlite.go:194 | an upsert reuses the row of its id and keeps the index exact |
| `FtsIndex.Backend.Delete` | backend/sqlite/sqlite.go:199 | a delete removes that row only and keeps the index exact |
| `FtsIndex.UpsertInSync` | backend/sqlite/fts.go:106-148 | insert and update triggers keep the index exact |
| `FtsIndex.RemoveInSync` | backend/sqlite/fts.go:123-131 | the delete trigger keeps the index exact |
| `FtsIndex.IndexHolds` | backend/sqlite/fts.go:80-148 | an index in sync holds one posting for every place where a row has a token at an indexed path and nothing else, and its three triggers are there for the same paths |
| `FtsIndex.IndexStaysExact` | backend/sqlite/fts.go:19-148 | over every run of transactions, rollbacks and registrations the index holds exactly the postings of the current rows, and its columns are those of the registration that created it |
| `FtsIndex.CompleteIffFieldsAreColumns` | backend/sqlite/fts.go:50-54 | after every run that creates the index and ends with another registration the fields registered last are all searched if and only if they are among those of the creation |
| `FtsIndex.NewFieldIsNotSearched` | backend/sqlite/fts.go:50-54 | a field added to the registration later is not |
| `FtsIndex.SearchIsExact` | backend/sqlite/fts.go:153-161 | a match on a token finds exactly the rows that have it in an indexed field |
| `TypeGraph.Walker.ComputeContainsLink` | engine/marshal.go:233-260 | a hit names a path to a link; a miss has finished everything it newly saw, although types under way answer false |
| `TypeGraph.LinkTypeCache.TypeContainsLink` | engine/marshal.go:223-231 | true exactly when a link shape is reachable through exported fields, pointers and elements, cached or not |
| `TypeGraph.LinkReachedFrom` | engine/marshal.go:244-260 | read step by step: a link shape itself, an exported field, a pointer or an element that leads to one, and nothing else |
| `TypeGraph.Walker.ScanValidateTags` | internal/util/reflect.go:189-227 | the same for the walk that looks for validate tags |
| `TypeGraph.HasValidateTags` | internal/util/reflect.go:178-227 | true exactly when a tag other than "-" is reachable through fields not tagged "-" and not inside time.Time |
| `TypeGraph.TagReachedFrom` | internal/util/reflect.go:189-227 | the same for validate tags |
| `TypeGraph.FinishedAvoids` | engine/marshal.go:240-243 | from a set that the walk has finished no goal can be reached |
| `CollectFields.AnalyzeStruct` | internal/util/reflect.go:142-155 | exactly one entry for every path whose struct types do not repeat, in declaration order, with the index path that leads to its field and the dotted name of its segments that are not embedded; refused exactly when one of those fields has a bad name or tag |
| `CollectFields.NameOfField` | internal/util/reflect.go:279-283 | a segment is the json name, or the Go name in lower case letter by letter |
| `CollectFields.FieldPasses` | internal/util/reflect.go:266-291 | a field passes if it is flattened away, or if its tag parses and its name is a SQL identifier |
| `CollectFields.LeadsIfWalks` | internal/util/reflect.go:260-332 | a path leads to a field if each step but the last goes into an embedded struct, or a struct or pointer to one that is no scalar and no link; it ends at the last field |
| `CollectFields.WalksIfLeads` | internal/util/reflect.go:260-332 | and only then |
| `CollectFields.SegmentsOfWalk` | internal/util/reflect.go:296-299 | its names are those of its fields in order, without the embedded ones |
| `CollectFields.Collector.CollectFields` | internal/util/reflect.go:260-332 | the walk below one struct, on top of any types already entered, restores the set of entered types and appends exactly its listing |
| `CollectFields.Collector.CollectField` | internal/util/reflect.go:266-330 | one field: flattened, listed, or listed and entered |
| `CollectFields.InfoThrough` | internal/util/reflect.go:293-326 | names and index paths handed down agree with those read from the top |
| `CollectFields.FieldPathsDue` | internal/util/reflect.go:260-272 | what a field contributes is what starts with it among the paths without a repeat |
| `LinkEncoding.NothingToExpand` | engine/marshal.go:24-27 | where nothing is loaded all encodings are the same text |
| `LinkEncoding.MeaningDiffersByMisses` | engine/marshal.go:15-22 | an encoding means what the fully expanded one means exactly when it leaves no loaded link as an id |
| `LinkContent.EncodeShows` | engine/link.go:23-40 | place by place: a leaf is its text, element i stands at index i, a map entry and an emitted field under their own keys and nothing else, a link that is not loaded or holds nothing is its id, and a loaded one its id or, where it is expanded, what shows its target |
| `LinkContent.MembersInFieldOrder` | engine/marshal.go:24-27 | the ordinary text of a struct has its members in field order, those of an embedded struct in its place |
| `Marshal.LinkFreeType` | engine/marshal.go:59-61 | the fast path never skips a link: values of a link-free type encode alike either way |
| `Marshal.LinkTable` | engine/marshal.go:223-231 | the cached walk, asked about every type, gives the exact table that the fast path looks up |
| `Marshal.MarshalValue` | engine/marshal.go:34-73 | every value is encoded with everything in its place (`LinkContent.ShowsExpanded`) and the meaning of the expanding encoding, and as the ordinary text when nothing is loaded |
| `Marshal.MarshalStruct` | engine/marshal.go:75-93 | the result is the ordinary text, or a re-encoding in key order of which some member really differs |
| `Marshal.PatchStructLinks` | engine/marshal.go:99-148 | every member that is not omitted ends with its expanded form in its place, no other key changes, and nothing changes if nothing is loaded |
| `Marshal.MarshalSequence` | engine/marshal.go:150-168 | elements in order |
| `Marshal.MarshalMap` | engine/marshal.go:170-201 | the entries of the map, in key order, each with its expanded meaning if the keys are strings and as the ordinary text if not |
| `Marshal.SortedMembers` | engine/marshal.go:92 | the re-encoded map has its members in ascending key order, all of them and no others |
| `Marshal.MarshalAny` | engine/marshal.go:15-32 | everything stands in its place, links that are not loaded as their ids; every loaded link is expanded exactly when none lies in a place that encoding/json emits and the code passes over; with nothing loaded it is the ordinary encoding |
| `MarshalExamples.EmbeddedLinkStaysAnId` | engine/marshal.go:104-106 | a loaded link below an unexported embedded struct stays an id |
| `MarshalExamples.NamedEmbedStaysAnId` | engine/marshal.go:104-106 | the same below one that has a json name, which is a member of its own |
| `MarshalExamples.EveryPlaceMisses` | engine/marshal.go:99-201 | for each of the six kinds of place, types and a value of them whose loaded link stays an id |

## Left out

- Drivers, pools, prepared statements, PRAGMAs, DSN building, schema DDL and version checks: I/O over libraries that are not part of this model.
- PostgreSQL isolation levels for the revision check: only writers that exclude one another are modelled, the discipline of SQLite's immediate transactions.
- One in-memory copy per client and document in the revision protocol: a transaction that loads the same document twice is not covered.
- Hard deletes, hand-built documents, IgnoreRevision and LinkWrite cascades in the revision protocol; `Revision` itself models IgnoreRevision.
- Hooks and validators: they succeed or fail without touching rows. An AfterInsert failure leaves the row in place on an insert outside a transaction, as in the code.
- Context cancellation, and errors of reads that the code only passes on.
- Skip in a chunked delete, and link cascades of Delete.
- Concurrent transactions with several locking statements, or with other row locks: the id order of one statement says nothing about them.
- ChunkedDelete.QuerySet.Delete: requires that the loop ends, which without a limit it may not; NeverEndsIffStayingFillAChunk says when.
- LockOrder.NeverStuckIffOrdersAgree: about queries that wait for locks; those with NOWAIT or SKIP LOCKED are covered by UnsortedLockingIsLive.
- Rows that change while a FOR UPDATE query waits are not re-evaluated.
- DropCollection, and the column names the FTS5 table gets; a name clash there is one of the ways a creation may fail.
- FTS5 ranking and tokenizing: a field is its sequence of tokens.
- Promotion rules of Go for equal JSON keys at different depths: values are assumed to have distinct keys.
- Custom marshallers in `Marshal`, among them structs that embed a link or a time.Time and so inherit its marshaller.
- Byte-level JSON escaping and number formatting: a leaf is its encoded text.
- LinkEncoding.MeaningDiffersByMisses: assumes that a loaded link points at a struct, which Link[T] of a document always does.
- Pure pointer cycles between Go types: the code's pointer-stripping loop does not end on them, so the walks assume there is none.
- IsLinkShape looks at a struct's own fields; fields promoted from embedded structs are not consulted.
- Case folding outside ASCII: the lower-cased Go name of an untagged field is modelled on ASCII letters.
- Attachments, file storage, URL registries, aggregates, stale-index reports, change tracking and the wrapper package.
