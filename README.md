# recap, modelled in Dafny

recap keeps the results of a sports league in a Postgres database. It
regenerates a static web site from them: one page per game, one index per
club and season, one per league, and a site index. An operator adds or
edits games from the command line. This project models the core of that
program and proves what it promises:

- **Store** (`store.dfy`): the filters and the game edit as classes whose
  setters update fields. Also the builders that turn a filter into an SQL
  text and its positional arguments (`gameQuery`, `seasonQuery`,
  `ordinate`), and `editGame`. `editGame` prepares up to three UPDATE
  statements and runs them in one transaction against a database whose
  failures are given as an oracle.
- **Cli** (`cli.dfy`): the prompts, which read standard input line by line.
  Also the dirty sets that a batch of added or edited games builds, and how
  they are drained into page regenerations. Then which failures end the
  program, the filters the index pages are generated from, and the nested
  loops of `generateIndices`.
- **Html** (`html.dfy`): the page paths, the breadcrumb depth of each page,
  and the navigation sections of the three sidebars. This includes the
  in-place sort `sort.Slice` performs.
- **Models** (`models.dfy`) holds the records of `internal/models.go`.
- **Text** (`text.dfy`) holds the Go library behaviour the core relies on:
  - `fmt`'s `%d`;
  - `strconv.Atoi`, with its int64 range and its 64-bit overflow;
  - `strings.ToUpper` and `strings.ToLower` on ASCII letters only (Go also
    maps non-ASCII letters; see "## Left out");
  - string `<`;
  - `len` in UTF-8 bytes;
  - `strings.Split` and `strings.Join`.

A query is modelled as a structured plan: a fixed base text, a list of
conditions, each over a run of placeholders, the ordering and the limit.
The rendered text is a function of that plan. The proofs connect the
placeholders to the argument list. The model keeps `ordinate` exactly as
written: it separates placeholders by spaces (`$1 $2 `), as its own comment
says. The program only ever passes one-element lists, so the rendered
conditions it uses are single-placeholder conditions `IN ($n )`.

Standard input is a sequence of lines. Past its end the Go `bufio.Scanner`
keeps reporting the empty text. A prompt that refuses the empty text
therefore never returns; this is modelled as `None`.

## Model

| member | source | states |
|---|---|---|
| Text.Atoi | internal/cli.go:36 | `strconv.Atoi` succeeds exactly on an optionally signed decimal within int64, and the value is then the decimal's. The value is always within int64. |
| Text.AtoiErrorValue | internal/cli.go:36 | With an error, Atoi gives the int64 bound of the sign when the digit run after the sign overflows 64 bits, even with text after it. Any other syntax error gives 0, and a well-formed decimal outside int64 gives its nearest bound. |
| Text.OverflowIsLong | internal/cli.go:81 | A line whose digit run overflows 64 bits is at least 20 characters long. |
| Text.OverflowOutOfRange | internal/cli.go:36 | A well-formed decimal whose digits overflow 64 bits is also outside int64, so both error paths agree on it. |
| Text.AtoiFromInt | internal/cli.go:81 | Any int64 printed with `%d` reads back as itself, without error. |
| Text.FromIntInjective | internal/html.go:57-69 | Different numbers print differently with `%d`, so ids and years in paths are unambiguous. |
| Text.ToUpper | internal/store.go:667 | `strings.ToUpper` keeps the length, upper-cases each ASCII letter and leaves every other character as it is. |
| Text.LexNotAfterTransitive | internal/html.go:215-217 | "Not after" under string `<` is transitive. This is what `sort.Slice` needs of the less function it is given. |
| Text.LexLessAsymmetric | internal/html.go:238-240 | String `<` is asymmetric. |
| Text.Utf8LenBounds | internal/cli.go:49 | `len` counts at least one byte per character, and exactly one for ASCII. |
| Store.Filter.constructor | internal/store.go:13-20 | A zero filter reports no limit. |
| Store.Filter.SetLimit | internal/store.go:18-25 | After `SetLimit(n)`, `Limit()` reports `(n, true)`. |
| Store.GameFilter.constructor | internal/store.go:27-33 | A composite literal selects the given ids, clubs, seasons and leagues, with no limit. |
| Store.GameFilter.SetLimit | internal/store.go:22-25 | Sets the limit; the selected lists are unchanged. |
| Store.SeasonFilter.constructor | internal/store.go:35-41 | The zero season filter reports the zero league and the zero club as unset, and no limit. |
| Store.SeasonFilter.SetLeague | internal/store.go:43-50 | `League()` then reports `(l, true)`; the club and the limit are unchanged. |
| Store.SeasonFilter.SetClub | internal/store.go:52-59 | `Club()` then reports `(c, true)`; the league and the limit are unchanged. |
| Store.SeasonFilter.SetLimit | internal/store.go:22-25 | Sets the limit; the league and club selections are unchanged. |
| Store.GameEdit.constructor | internal/store.go:61-72 | A zero edit reports every field unset. |
| Store.GameEdit.SetDate | internal/store.go:74-77 | `Date()` then reports `(d, true)`; the other four getters are unchanged. |
| Store.GameEdit.SetTitle | internal/store.go:79-82 | `Title()` then reports `(t, true)`; the other four getters are unchanged. |
| Store.GameEdit.SetVenue | internal/store.go:84-87 | `Venue()` then reports `(v, true)`; the other four getters are unchanged. |
| Store.GameEdit.SetHomeScore | internal/store.go:89-92 | `HomeScore()` then reports `(score, true)`; the other four getters are unchanged. |
| Store.GameEdit.SetAwayScore | internal/store.go:94-97 | `AwayScore()` then reports `(score, true)`; the other four getters are unchanged. |
| Store.PlaceholderRoundTrip | internal/store.go:678 | `$i` reads back as i and contains no space and no comma. |
| Store.Ordinate | internal/store.go:675-681 | The loop builds `$start $(start+1) ... `, each placeholder followed by a space. |
| Store.OrdinateFront | internal/store.go:675-681 | `ordinate(start, n+1)` is `$start`, a space, then `ordinate(start+1, n)`. |
| Store.OrdinateTerminated | internal/store.go:673-681 | The text is the placeholders `$start ..`, each terminated by a space. |
| Store.OrdinateSplit | internal/store.go:673-681 | Split at spaces, the text gives back exactly the n placeholders, then the empty text. |
| Store.OrdinateTokens | internal/store.go:673-681 | Split at spaces, the text has n+1 pieces. The k-th piece reads as placeholder start+k, and the last piece is empty. |
| Store.RenderEnds | internal/store.go:576-581 | A query text ends with its ORDER BY, followed by `LIMIT n` exactly when the filter sets a limit. |
| Store.RangeAppend | internal/store.go:614 | Numbering a first run of placeholders and then a second one continues `$1 ..` without gap or overlap. |
| Store.ExtendKeepsStep | internal/store.go:610-615 | Adding a criterion keeps the placeholders numbered `$1 .. $n` in text order, and binds the new clause to exactly its values. |
| Store.GamePlanMeaning | internal/store.go:605-668 | In a game query the placeholders are `$1 .. $n` in text order for its n arguments. Each condition picks exactly its criterion's values: the game ids, the club ids, the season ids, then the upper-cased league codes. |
| Store.GamePlanShape | internal/store.go:642-668 | The arguments are the ids, club ids, season ids and upper-cased league codes, in that order. There is a WHERE part exactly when some list is non-empty. The limit is the filter's. |
| Store.GamePlanIgnoresLeagueCase | internal/store.go:666-668 | Two game filters whose league codes agree once upper-cased produce the same query. |
| Store.SeasonPlanMeaning | internal/store.go:552-569 | In a season query the placeholders are `$1 .. $n`. The league condition picks the league code and the club condition the club id. |
| Store.SeasonPlanShape | internal/store.go:557-581 | The league code is passed as given, before the club id. There is a WHERE part exactly when something is selected. |
| Store.ExtendInStep | internal/store.go:609-615 | The WHERE list and the argument counter that a builder keeps stay in step with the plan as criteria are added. |
| Store.RenderBuilt | internal/store.go:642-652 | The text assembled from the WHERE list, ORDER BY and LIMIT is the rendering of the plan. |
| Store.AddListCondition | internal/store.go:609-640 | One filter block of gameQuery: a non-empty list adds its condition over `ordinate(arg, n)` and advances the counter by n. |
| Store.GameQuery | internal/store.go:588-671 | gameQuery returns the rendering of the plan for the filter's criteria, and exactly that plan's arguments. |
| Store.GameArgs | internal/store.go:654-668 | The four argument loops give the ids, club ids, season ids and upper-cased league codes, concatenated. |
| Store.SeasonQuery | internal/store.go:539-584 | seasonQuery returns the rendering of the plan for the filter's criteria, and exactly that plan's arguments. |
| Store.GamePartMeaning | internal/store.go:387-418 | The game row is updated exactly when the date, the title or the venue is set. Each set column is assigned once, in the order date, title, venue, to `$1 ..` with its value. The game id comes last, in the placeholder after them. |
| Store.SetColumnsEmpty | internal/store.go:412 | No column is assigned exactly when none of date, title and venue is set. |
| Store.GameAssignmentsAssigned | internal/store.go:387-410 | The three column blocks assign the set columns in order, numbered from `$1` and bound to their values. |
| Store.AssignKeeps | internal/store.go:391-396 | One column block keeps the assignments numbered and bound. |
| Store.AssignedUpdate | internal/store.go:412-418 | The game id is bound to the placeholder after the last column. |
| Store.EditPlanWrites | internal/store.go:380-446 | Running an edit's updates writes each column exactly when the edit sets it, with the edit's value. It writes the home and away scores exactly as set, when the two clubs differ. |
| Store.GameColumnWritten | internal/store.go:387-418 | The game-row update writes each column exactly when the edit sets it. |
| Store.AssignedValueAt | internal/store.go:387-418 | Numbered, bound assignments leave in each column the edit's value if the column is set, and nothing otherwise. |
| Store.ScorePartWrites | internal/store.go:420-446 | A score update exists exactly when the score is set. It sets that club's score to the value and sets no other club's. |
| Store.ScoresWritten | internal/store.go:420-446 | The home and away score updates leave exactly the edit's scores. |
| Store.ColumnsWritten | internal/store.go:420-446 | The score updates write no column of the game row. |
| Store.EditPlanShape | internal/store.go:380-446 | An edit runs at most three updates, and none exactly when it sets nothing. Only the first may touch the game row. Each update names the edited game at the placeholder its text uses for it. |
| Store.EditStatementsParts | internal/store.go:380-446 | The statements of an edit are the game update, the home score update and the away score update, each when present, in that order. |
| Store.AddAssignment | internal/store.go:391-410 | One column block of editGame appends `column = $arg` and its value when the column is set, and advances arg. |
| Store.PrepareGameUpdate | internal/store.go:383-418 | The prepared game statement is the compiled game-row update of the edit, or none. |
| Store.PrepareScoreUpdate | internal/store.go:420-446 | The prepared score statement is `score = $1 ... game_id = $2 and club_id = $3` with the score, game id and club id, when the score is set. |
| Store.Database.Begin | internal/store.go:449-452 | Begin is a call that may fail; on success a transaction is open with nothing pending. |
| Store.Database.Exec | internal/store.go:455 | A statement joins the pending ones when it succeeds. A failure leaves the transaction open. |
| Store.Database.Rollback | internal/store.go:457 | Rolling back drops the pending statements and closes the transaction. |
| Store.Database.Commit | internal/store.go:478 | A successful commit makes the pending statements durable together. A failed one makes none of them durable. |
| Store.Database.Game | internal/store.go:482 | The game is read back from the committed state. |
| Store.ExecRunSucceeds | internal/store.go:454-480 | Once begun, the edit succeeds exactly when every Exec and the Commit succeed. |
| Store.ExecRunCalls | internal/store.go:454-480 | When it succeeds it executes every statement in order, then commits. |
| Store.ExecRunFirstError | internal/store.go:454-480 | When it fails, it returns the error of a call it made. |
| Store.ExecRunEnds | internal/store.go:454-480 | It ends with a commit or a rollback, never both. |
| Store.TxRunSucceeds | internal/store.go:448-480 | editGame's transaction commits exactly when Begin, every Exec and the Commit succeed. |
| Store.TxRunCalls | internal/store.go:448-480 | A committed transaction is Begin, each statement in order, then Commit. |
| Store.TxRunFirstError | internal/store.go:448-480 | A failed transaction returns the error of one of its calls. |
| Store.TxRunEnds | internal/store.go:448-480 | The transaction always begins first, and never both commits and rolls back. |
| Store.ExecOrRollback | internal/store.go:454-476 | One update block: run the statement if present. On error roll back and return the error, with nothing committed. |
| Store.StoreUpdates | internal/store.go:448-480 | The calls made are exactly those of the transaction run. The prepared statements become durable together when it succeeds, and nothing does otherwise. |
| Store.RunUpdates | internal/store.go:454-480 | The three update blocks and the commit follow the transaction run to its end. |
| Store.FinishUpdates | internal/store.go:470-480 | The last update block and the commit follow the transaction run to its end. |
| Store.EditGame | internal/store.go:380-483 | On success the edit's statements are committed together and the game is read back from the database. On failure nothing is committed and the unchanged game is returned with the error. The calls made are those of the transaction run. |
| Cli.FirstAcceptedMeaning | internal/cli.go:30-96 | A prompt accepts the first acceptable line and refuses every earlier one. It never returns exactly when no line, including the empty text past the end, is acceptable. |
| Cli.PromptString | internal/cli.go:43-53 | promptString returns the first line whose length in bytes is within [min, max], and the line after it is read next. |
| Cli.PromptBool | internal/cli.go:55-70 | promptBool returns the reading of the first yes-or-no answer. |
| Cli.YesNoMeaning | internal/cli.go:61-67 | y, Y and yes read as true; n, N and no read as false; nothing else is an answer. |
| Cli.PromptInt | internal/cli.go:30-41 | promptInt returns the value of the first line that is a decimal int64. |
| Cli.PromptList | internal/cli.go:72-84 | promptList returns the zero-based index of the first line that reads as an option number 1..n. With no options it never returns. |
| Cli.NonNumericRefused | internal/cli.go:81 | A line that is not a decimal number reads as 0, or as an int64 bound when it starts with at least 20 digits that overflow 64 bits. Either way it selects nothing from fewer than 2^63 - 1 options. |
| Cli.DateTextMatches | internal/cli.go:89-90 | The one-pass date check accepts exactly the lines `^[0-9]{4}-[0-9]{1,2}-[0-9]{1,2}$` matches. |
| Cli.PromptDate | internal/cli.go:86-96 | promptDate returns the first line of the form yyyy-m-d with one or two digits for month and day. |
| Cli.DirtySnoc | internal/cli.go:274-276 | One more game adds its league and its two (club, season) pairs. |
| Cli.CollectDirty | internal/cli.go:224-276 | After a batch the dirty maps hold exactly the leagues and the (club, season) pairs of its games. |
| Cli.DirtyRepeat | internal/cli.go:397-399 | Touching again something already touched changes nothing. |
| Cli.DirtyOrderFree | internal/cli.go:397-399 | The order of the batch does not matter. |
| Cli.DirtyBounds | internal/cli.go:274-276 | A batch of n games makes at most 2n club indexes and n league indexes stale. |
| Cli.ClubIndexes | internal/cli.go:281-283 | Each dirty pair gets one club index, once, in some order. |
| Cli.LeagueIndexes | internal/cli.go:285-287 | Each dirty league gets one league index, once, in some order. |
| Cli.DrainPlan | internal/cli.go:281-289 | First every dirty club index, then every dirty league index, then the site index, each page once. |
| Cli.RunPages | internal/cli.go:175-216 | The program ends exactly when some page's games query fails, its sidebar template panics in `template.Must` (any page kind, internal/html.go:109-111, 126-128, 143-145), or a league or site index fails to be written. A club index write failure is only reported. It stops right after the first such page. |
| Cli.ClubIndexFilter | internal/cli.go:176 | A club index selects its club and its season, with no limit. |
| Cli.LeagueIndexFilter | internal/cli.go:189-190 | A league index selects its league, limited to 20. |
| Cli.IndexFilter | internal/cli.go:204-205 | The site index selects everything, limited to 20. |
| Cli.LeagueSeasonsFilter | internal/cli.go:476-477 | generateIndices selects the seasons of one league. |
| Cli.ClubIndexQuery | internal/cli.go:175-179 | The club index query has two conditions: the club id as `$1`, the season id as `$2`. |
| Cli.LeagueIndexQuery | internal/cli.go:188-193 | The league index query has one condition on the upper-cased league code, and `LIMIT 20`. |
| Cli.IndexQuery | internal/cli.go:203-208 | The site index query has no WHERE part and ends with `LIMIT 20`. |
| Cli.LeagueSeasonsQuery | internal/cli.go:475-478 | The seasons of a league are selected by its code, as `$1`. |
| Cli.SeasonsPlan | internal/cli.go:484-494 | For each season in turn, the club index of each of its clubs, in order. |
| Cli.IndicesPlan | internal/cli.go:468-500 | For each league: the club indexes of its seasons, then its league index; the site index last. |
| Cli.SeasonsPagesMembers | internal/cli.go:484-494 | A page is regenerated for a season list exactly when it is the club index of a club of one of the seasons. |
| Cli.IndicesPagesMembers | internal/cli.go:468-497 | generateIndices regenerates exactly the club index of every club of every season of every league, and every league index. |
| Cli.SiteIndexLast | internal/cli.go:499 | The site index is regenerated once, last. |
| Html.GamePathSegments | internal/html.go:56-62 | A game page lies in `<code>/<year>/<type>/games` and is named by the game id. |
| Html.ClubPathSegments | internal/html.go:64-70 | A club page lies in `<code>/<year>/<type>/teams` and is named by the club id. |
| Html.LeaguePathSegments | internal/html.go:72-74 | A league page is `index.html` in the directory of its code. |
| Html.IndexPathSegments | internal/html.go:76-78 | The site index is `index.html` at the root. |
| Html.GamePathInjective | internal/html.go:56-62 | Two games share a page exactly when they have the same id, league code, year and season type. |
| Html.ClubPathInjective | internal/html.go:64-70 | A club page is determined by the club id and the season's league code, year and type. The club's iteration plays no part. |
| Html.GameAndClubPathsDiffer | internal/html.go:56-70 | A game page and a club page never share a path. |
| Html.LeaguePathInjective | internal/html.go:72-78 | League pages differ exactly when their codes do, and none is the site index. |
| Html.UpSegments | internal/html.go:83 | `PathToRoot` for n levels is n segments `..`. |
| Html.GameCrumbsReachRoot | internal/html.go:80-86 | A game page climbs `../../../..`, exactly as deep as it lies. Its crumbs link to its league's page and to both clubs' pages for the game's season. |
| Html.ClubCrumbsReachRoot | internal/html.go:97-101 | A club page climbs `../../../..`, exactly as deep as it lies. |
| Html.LeagueCrumbsReachRoot | internal/html.go:116-119 | A league page climbs `..`, exactly as deep as it lies. |
| Html.IndexCrumbsReachRoot | internal/html.go:133-136 | The site index's `.` is the root. |
| Html.SortSlice | internal/html.go:170-172 | `sort.Slice` leaves no element less than its predecessor and keeps the same elements. |
| Html.Insert | internal/html.go:170-172 | One insertion step extends the ordered prefix by one element and keeps the elements. |
| Html.Swap | internal/html.go:170-172 | An exchange of neighbours keeps the elements. |
| Html.YearsDescending | internal/html.go:170-172 | Seasons sorted with the year comparison have their years descending throughout. |
| Html.KeysAscending | internal/html.go:215-217 | Entries sorted by a string key have their keys ascending throughout. |
| Html.Partition | internal/html.go:156-164 | The partition loop puts the exhibition seasons on one side and the others on the other, each in input order. |
| Html.PartitionExact | internal/html.go:156-164 | Every season lands on exactly one side: exhibition exactly when flagged. Together the two sides are the input. |
| Html.SortByYear | internal/html.go:170-172 | A partition sorted by year, latest first, with the same seasons. |
| Html.FillSeasonLinks | internal/html.go:175-181 | One link per season, in order: the club's page for that season. |
| Html.SeasonSection | internal/html.go:166-184 | A section lists its seasons latest first, each linked to the club's page for it. |
| Html.ClubSidebar | internal/html.go:150-204 | "Other Seasons" for the regular seasons, then "See also" for the exhibition ones. Each section appears only when it has seasons, sorted latest first. |
| Html.LeagueSidebar | internal/html.go:206-227 | One "Teams" section linking every club's page for the season, ordered by the place represented with its ASCII letters lower-cased. The caller's clubs are sorted in place. |
| Html.IndexSidebar | internal/html.go:229-250 | One "Leagues" section linking every league's page, ordered by the name with its ASCII letters lower-cased. The caller's leagues are sorted in place. |

## Left out

- Executing SQL is not modelled: the rows a query returns, their order, and
  SQL `upper()`. These are database behaviour. The store methods that only
  run a query and scan rows (`league`, `leagues`, `seasons`, `games`,
  `createGame`, `resources` and the rest) are not part of this model.
  Queries are modelled up to the text and arguments handed to the driver.
- The base SELECT texts and the ORDER BY texts are kept as opaque
  constants. Their column lists are not checked.
- Standard input and output, the prompt texts printed, and `os.Exit` are
  not modelled as I/O. Input is a sequence of lines. Exiting is an outcome
  of `RunPages`.
- `promptLeagues`, `promptSeasons`, `promptClubs` and the interactive loops
  of `addGame` and `editGame` are not part of this model. The game fields
  read and the follow-up `createGame`, `resources` and `gamePage` calls are
  left out too. Only the dirty-set accumulation and the drain are modelled.
- Text.ToUpper, Text.ToLower: only the ASCII letters change case; Go's
  `strings.ToUpper` and `strings.ToLower` also map every non-ASCII letter
  through `unicode.ToUpper`/`ToLower`. So for text with non-ASCII letters
  the model does not capture Store.GameArgs binding a league code such as
  "ñfl" as "ÑFL" (nor Store.GamePlanIgnoresLeagueCase for such codes), nor
  the order Html.LeagueSidebar and Html.IndexSidebar give names that differ
  only in non-ASCII case ("Ézy" and "éaa" sort as "ézy" and "éaa" in Go).
  Unicode case tables are outside this model.
- Cli.PromptString, Cli.PromptBool, Cli.PromptInt, Cli.PromptList, Cli.PromptDate:
  the model assumes line-at-a-time input, as from a terminal, so the line
  after an accepted one is the next prompt's first line. Every prompt
  creates its own `bufio.Scanner` on standard input; with piped or
  redirected input a discarded scanner may already have buffered later
  lines, and those lines are lost. That loss is not modelled.
- Cli.RunPages: it models the failure policy of the drain, given each page's
  outcome. The interleaving of Go's map iteration with the writes is
  represented by choosing the iteration order first.
- Cli.IndicesPlan: failures of `leagues`, `seasons` and `clubsBySeason` are
  not modelled. Each one prints and exits before any later page.
- `generateSidebars`, `generateSite`, `Initialize` and `Start` are outside
  the core and are not part of this model.
- `dateShort` and `dateLong` are thin wrappers over Go's time formatting,
  and are left out.
- Template parsing and execution are left out, as is the page content they
  produce (titles, subtitles, the games listed). Only their effect on the
  drain is kept: a `template.Must` panic is a page outcome of Cli.RunPages. The model stops at the data
  handed to the templates, which are library calls.
- `internal/writeHTML.go` (file creation, gzip, `MkdirAll`), `recap.go` and
  `minifier/main.go` are not part of this model.
- Html.SortSlice: the insertion sort stands for Go's `sort.Slice`. Its
  contract is only what `sort.Slice` promises: ordered and a permutation.
  The order of equal elements is not fixed, because `sort.Slice` is not
  stable.
- Store.Database: the database is an oracle of failures, indexed by call
  number, and of game reads. Concurrency with other sessions is not
  modelled.
- Integers are unbounded except where the source parses them
  (`strconv.Atoi`'s int64 range). Go's `int` overflow in `arg += len(...)`
  is not modelled, since it needs more than 2^63 list elements.
- Html.Plain: the path lemmas require league codes and season types without
  a slash. Nothing in the program checks that; with a slash in either, the
  segment lemmas do not hold.
