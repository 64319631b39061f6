# HoneyMind: a verified model

A Dafny model of the parts of HoneyMind that keep state or transform attacker input, with
proofs of what they promise. Each module follows one component:

| module | component |
|---|---|
| `InputNormalizer`, `LookupKeys` | cache keys of commands, SQL texts and HTTP requests |
| `InvokeLimiters`, `DataHandlers`, `DataHandlerSteps` | cache-first answering in front of a rate-limited language model |
| `Paths`, `FakeFs`, `FakeFsSteps`, `FindSubtree`, `Flatten` | the fake file system: path resolution, the shared node table, `find`, and the flatteners that fill it |
| `IocStores`, `IocWriters`, `IocRuns`, `IocRecords` | the indicator tables and the log tailer that fills them |
| `CampaignDetector`, `EditDistance` | grouping and consolidation of sessions, and the session analysis |
| `ReportServer`, `ReportOutcomes` | the generate/cancel/worker protocol of campaign reports |
| `PasswordManager` | the deferred-success password validator |
| `PostgresFraming` | framing of PostgreSQL messages and data rows |
| `Text`, `Ordering` | Python's `strip` and string order |

Objects whose methods update fields are classes; their methods are proved equal to a step
function on values (`Serve`, `Invoke`, `Attempt`, `ProcessFile`, `Consolidated`, ...), and
the laws are proved about every run of those steps. What these functions compute is stated
a second time in the fields of their inputs alone: events (`RunsRecordTheEvents`), sessions
(`DetectCampaigns`), texts (`OperatorStands`, `SameHttpKeyIff`), paths (`PathSteps`, `MkdirMakes`)
and outcomes of child processes (`RowsAreEarned`). Loops of the program are loops here.
`dafny verify dfyconfig.toml` checks the project.

## How the program is read

- Clocks, random draws, the reply of the language model (or its exception), and the outcome
  of a child process are inputs of each step. Time stamps of the IOC tables are reals: the
  code only compares them. Limiter clocks are integers in microseconds.
- The shared table of answers and the shared file system are read twice: `DataHandlers` and
  `FakeFs` take requests and commands one after another, as whole steps; `DataHandlerSteps`
  and `FakeFsSteps` interleave their single statements, as the threads of the program do.
- SQL tables are sequences, maps and sets with the meaning of the statements used: INSERT,
  INSERT OR REPLACE, the `CASE` merges, LIKE without an escape character.
- Where code and documentation differ, the code is modelled. README.md:107 says that quoted
  strings and escaped whitespace are preserved, but `raw.strip()` runs first; the exact
  condition is `StripLosesNothingIff`. The docstring of `PasswordManager.attempt` and the
  defaults of the module name different attempt counts; both bounds are parameters here.
- Properties that fail on some inputs come with the exact condition under which they hold:
  `StripLosesNothingIff`, `AnsweredAgainIff`, `LiftsIff`, `LookupAgreesIff`,
  `RunsStayTreesIff`, `SubtreeIsWalkIff`, `ReprocessingIsSilentIff`, `OneWorkerIff`,
  `StaleRowIff`, `QuiescentIsEmptyIff`, `OverlongAcceptedIff`, `StreamRoundTripIff`,
  `RowDecodesIff`; most also with a lemma at an input or a run where they fail.

## Model

| member | source | states |
|---|---|---|
| InputNormalizer.TokenizeShellLike | src/core/input_normalizer.py:120-182 | The character loop, with its `quote`, `token` and `index` variables, returns exactly the tokens of a token-at-a-time reading, for every text. |
| InputNormalizer.OperatorFacts | src/core/input_normalizer.py:172-176 | First-match search in table order: a match is a non-empty prefix without blanks, quotes or backslashes, no lookahead crosses a blank, and a matched operator standing alone matches itself. |
| InputNormalizer.MatchIsLongest | src/core/input_normalizer.py:5 | The order of `SHELL_OPERATORS` makes the first match the longest operator that starts the text. |
| InputNormalizer.TokensOfJoin | src/core/input_normalizer.py:33-45 | Tokenising the space-joined tokens gives back exactly those tokens, for every text: unclosed quotes, dangling backslashes and overlapping operators included. |
| InputNormalizer.NormalizeCommandIdempotent | src/core/input_normalizer.py:33-45 | A normalised command is its own key. |
| InputNormalizer.SameKeyIffSameTokens | src/core/input_normalizer.py:33-45 | Two commands share a key if and only if their stripped texts have equal token lists. |
| InputNormalizer.TokensKeepVisible | src/core/input_normalizer.py:120-170 | The tokens, concatenated, are the text without its unquoted and unescaped blanks: nothing else is lost, added or reordered. |
| InputNormalizer.SpansAreTokens | src/core/input_normalizer.py:120-182 | Each token is a stretch of the text, at the position the reader was at. |
| InputNormalizer.QuotedRunsStayWhole | src/core/input_normalizer.py:131-160 | No token begins or ends inside a quoted run or just behind an escaping backslash. |
| InputNormalizer.StripLosesNothingIff | src/core/input_normalizer.py:40 | Stripping before tokenising keeps the tokens if and only if quoting and escaping are at rest where the trailing blanks begin, or there are none; the promise that quoted and escaped blanks survive fails exactly otherwise. |
| InputNormalizer.EscapedBlankIsLost | src/core/input_normalizer.py:40 | For every text that ends in an open escape, one blank behind it is lost. |
| InputNormalizer.BackslashBlankIsLost | src/core/input_normalizer.py:40 | An input at which the promise fails: `a`, a backslash and a blank. |
| InputNormalizer.OperatorStands | src/core/input_normalizer.py:158-163 | Each of the ten operators, spelt out, is a token of its own between two texts that do not extend it, with the tokens of the texts on either side, wherever quoting is at rest. |
| InputNormalizer.BlanksAroundOperator | src/core/input_normalizer.py:33-45 | So blanks around an operator change no key: `a;b` and `a ; b` share theirs. |
| InputNormalizer.TouchingTokens | src/core/input_normalizer.py:145-169 | A token that ends right before a character other than a blank touches the next one, and one of the two is one of the ten operators: nothing else parts characters. |
| InputNormalizer.TokensOfParted | src/core/input_normalizer.py:120-182 | Where quoting is at rest and a blank or an operator follows, the tokens of two texts stand side by side. |
| InputNormalizer.BlankSeparates | src/core/input_normalizer.py:153-156 | A space, tab or line break outside quotes separates the tokens on its two sides. |
| InputNormalizer.QuotedIsOneToken | src/core/input_normalizer.py:129-143 | A text between two equal quotes is one token; between single quotes a backslash is a character like any other. |
| InputNormalizer.EscapeInQuotes | src/core/input_normalizer.py:129-137 | Between double quotes a backslash protects the next character, even a quote. |
| InputNormalizer.EscapedIsOneToken | src/core/input_normalizer.py:145-151 | Outside quotes a backslash protects the next character, even a blank. |
| InputNormalizer.RestIsLeftIff | src/core/input_normalizer.py:139-151 | Outside quotes, only the two quotes and the backslash open something. |
| Text.BlanksListed | src/core/input_normalizer.py:153 | The blanks of `str.isspace`, one by one. |
| LookupKeys.CollapseUnquotedWhitespace | src/core/input_normalizer.py:185-214 | The loop with `quote` and `pending_space` writes the stretches of the text between its unquoted blanks, exactly one space apart, quoted text untouched; for texts without a leading blank, the only ones it is called with. |
| LookupKeys.NormalizeSqlJoinsWords | src/core/input_normalizer.py:68-73 | The SQL key is the stretches of the stripped text between its unquoted blanks, joined by single spaces: no two unquoted blanks are adjacent, and none is anything but a space. |
| LookupKeys.NormalizeSqlIdempotent | src/core/input_normalizer.py:68-73 | A normalised SQL text normalises to itself. |
| LookupKeys.QuotedSqlIsItsKey | src/core/input_normalizer.py:191-203 | A text between two equal single, double or back quotes is its own SQL key, blanks included. |
| LookupKeys.SqlBlankSeparates | src/core/input_normalizer.py:205-212 | A blank outside those quotes parts the stretches on its two sides. |
| LookupKeys.QuoteOpensIff | src/core/input_normalizer.py:73 | Only single, double and back quotes open a quoted SQL stretch. |
| LookupKeys.OneSqlWord | src/core/input_normalizer.py:190-212 | A text without blanks is a single stretch. |
| LookupKeys.NormalizeHttpIdempotent | src/core/input_normalizer.py:48-65 | A normalised request line or path normalises to itself, through the split into verb, path and rest. |
| LookupKeys.HttpKeyOfLine | src/core/input_normalizer.py:54-65 | For one of the nine methods in any case, blanks, a path without blanks and a rest: the key is the verb as typed, one space, the path, and the stripped rest behind one space if there is one. |
| LookupKeys.HttpKeyOfOther | src/core/input_normalizer.py:54-60 | Any other text is its own key but for blanks at its ends. |
| LookupKeys.SameHttpKeyIff | src/core/input_normalizer.py:48-65 | Two texts share a key if and only if they are equal when stripped, or are request lines with the same verb, path and stripped rest. |
| LookupKeys.PathIsItsKey | src/core/input_normalizer.py:48-56 | A text without blanks, such as a path, is its own key, so different paths never share one. |
| LookupKeys.LookupKeyIdempotent | src/core/input_normalizer.py:76-82 | Whatever the request type, a lookup key is a fixed point of the normaliser for that type. |
| InvokeLimiters.InvokeLimiter.CanInvoke | src/llm_providers/llm_utils.py:446-464 | The call changes the two dictionaries and answers as one step of the limiter machine does: count, refuse and stamp, or reset after the period. |
| InvokeLimiters.RunsAreKept | src/llm_providers/llm_utils.py:432-464 | On every run with a non-decreasing clock, the counters describe the grants of each visitor since its last reset. |
| InvokeLimiters.MoreThanLimitNeverFit | src/llm_providers/llm_utils.py:432-464 | Any more than `limit` granted calls of one visitor span strictly more than the period, across any number of resets. |
| InvokeLimiters.NoLimitBelowOne | src/llm_providers/llm_utils.py:446-464 | A limit below one grants every call, since counting starts at one. |
| InvokeLimiters.LongPeriodNeverLifts | src/llm_providers/llm_utils.py:454-460 | As `.seconds` drops whole days, with a period of a day or more a visitor never gets more than `limit` calls. |
| InvokeLimiters.LiftsIff | src/llm_providers/llm_utils.py:454-460 | A refused visitor is let in again if and only if the time since the refusal, modulo one day, exceeds the period. |
| InvokeLimiters.CallCounts | src/llm_providers/llm_utils.py:446-464 | A call below the limit counts one up and is granted; the first at the limit is refused and stamped; later ones change nothing until one lifts the limit and counts as the first. |
| InvokeLimiters.FirstCallsAreGranted | src/llm_providers/llm_utils.py:446-464 | On every run, the first `limit` calls of a visitor are all granted. |
| InvokeLimiters.CallsBelowLimitAreGranted | src/llm_providers/llm_utils.py:446-464 | And on from a call that lifted the limit, as many as fit under it. |
| InvokeLimiters.VisitorsAreApart | src/llm_providers/llm_utils.py:446-464 | What a visitor is granted depends on its own calls only. |
| DataHandlers.SqliteDataStore.Store | src/infra/data_store.py:128-139 | Appends one row holding the terms that name columns. |
| DataHandlers.SqliteDataStore.Search | src/infra/data_store.py:141-147 | If there is an answer, some row matches all given columns and holds it, and no older row matches; if there is none, no row matches. |
| DataHandlers.SqliteDataStore.LoadStaticContent | src/infra/data_store.py:81-120 | Appends, in order, the lines that hold every required key, and skips the others. |
| DataHandlers.SqliteDataStore.Clear | src/infra/data_store.py:122-126 | Deletes the rows not loaded from static files, keeps the others in order, and counts the deleted. |
| DataHandlers.StaticRowsAreLines | src/infra/data_store.py:81-120 | The rows loaded are exactly those of the lines that hold every column, and an answer too unless the columns are path and name; each marked static, with its columns and its answer. |
| DataHandlers.StaticIsAnswered | src/infra/data_handler.py:143-158 | A request for what a static line answers is answered from the table, as long as no line has an empty answer. |
| DataHandlers.NormalizeSearchTerms | src/infra/data_handler.py:118-131 | The loop over the terms normalises each by the type of its key, and nothing when switched off. |
| DataHandlers.DataHandler.SearchWithRawFallback | src/infra/data_handler.py:143-158 | Normalised key first, then the raw terms when they differ; a raw hit also files its answer under the normalised key. |
| DataHandlers.DataHandler.Request | src/infra/data_handler.py:100-110 | One request answers, changes the table, the limiter and the last action as one step of the cache-first machine does, also when the model raises. |
| DataHandlers.AnswersAreConsistent | src/infra/data_handler.py:143-179 | On every run of whole requests over non-empty answers, once a request is answered, every later one with the same key gets that answer from the table. |
| DataHandlers.OneModelAnswerPerKey | src/infra/data_handler.py:166-179 | On every run of whole requests over non-empty answers, the model answers at most one request for each key. |
| DataHandlers.KeyAsRequest | src/infra/data_handler.py:118-158 | Asking for the normalised form of an answered request gives the same answer. |
| DataHandlers.OnlyRepliesAreStored | src/infra/data_handler.py:166-179 | Every stored answer was there at the start or is a reply of the model; a refusal is never stored. |
| DataHandlers.ClearingForgets | src/infra/data_store.py:122-126 | On every run from a loaded table, clearing brings back exactly the rows that were loaded. |
| DataHandlers.AnsweredAgainIff | src/infra/data_handler.py:143-158 | On every run, empty answers included: a later request with the same key gets the earlier answer if and only if that answer is not empty and no empty one already stood under the key, or its raw terms are another entry that held the same answer from the start. |
| DataHandlers.ReusedIff | src/infra/data_handler.py:146 | For an identical later request: a reply of the model is given again if and only if it is not empty and no empty answer already stood under its key, since `if result:` takes an empty answer for a miss. |
| DataHandlers.EmptyReplyIsForgotten | src/infra/data_handler.py:146 | A run at which consistency fails: the same request twice, an empty reply first, and two different answers. |
| DataHandlers.ModelCallsAreGrants | src/infra/data_handler.py:100-110 | The model is called exactly when the limiter grants a call for a request that the table cannot answer. |
| DataHandlers.ModelCallsAreLimited | src/infra/data_handler.py:65 | Whatever is asked, more than twenty model calls never fit in ten minutes. |
| DataHandlers.FirstTwentyAreAsked | src/infra/data_handler.py:100-110 | The first twenty requests that the table cannot answer are never refused. |
| DataHandlers.Actions | src/infra/data_handler.py:160-179 | What the client gets for each action: a stored answer, the reply of the model, the fixed refusal text, or the exception; the last two store nothing. |
| DataHandlers.KeyByColumn | src/infra/data_handler.py:118-141 | A command, an SQL query and a path, its arguments or a routing key are normalised each by their own rules, any other term not at all. |
| DataHandlers.HitsAgree | src/infra/data_handler.py:143-158 | An answer from the table is that of a row that agrees with every column of the request, in the normalised terms or else in the raw ones. |
| DataHandlers.SpellingsShareAnswers | src/infra/data_handler.py:118-158 | On every run, a command typed with and without blanks around an operator gets one answer. |
| DataHandlerSteps.ServeIsFiveSteps | src/infra/data_handler.py:143-179 | The two look-ups, the alias, the call and the store of a request, with nothing in between, are the whole request. |
| DataHandlerSteps.LaterRequestsGetTheStored | src/infra/data_handler.py:143-179 | However requests overlap: a request that begins once a non-empty answer is stored under its key gets exactly that answer. |
| DataHandlerSteps.ModelAnswersOverlap | src/infra/data_handler.py:166-179 | However requests overlap, over non-empty answers: of two requests for one key that the model answers, the later one began before the first answer was stored. |
| DataHandlerSteps.OverlapGetsTwoAnswers | src/infra/data_handler.py:166-179 | Two overlapping requests for one key do get two different answers of the model; the first one stored stands from then on. |
| DataHandlerSteps.OverlappingCallsAreGrants | src/infra/data_handler.py:100-110 | However requests overlap, the model is called exactly when the limiter grants a call. |
| DataHandlerSteps.OverlappingCallsAreLimited | src/infra/data_handler.py:65 | However requests overlap, more than twenty model calls never fit in ten minutes. |
| Paths.NormalizePathStepwise | src/infra/fake_fs/commands.py:138-154 | The loop that pushes and pops `base` computes the walk of the names. |
| Paths.NormalForm | src/infra/fake_fs/commands.py:138-154 | Normalising is walking the non-empty names of the path from the root or from the names of `cwd`, for all inputs. |
| Paths.NormalizeIsCanonical | src/infra/fake_fs/commands.py:138-154 | The result has one leading slash and no empty, `.` or `..` part, when the path is absolute or `cwd` canonical. |
| Paths.NormalizeComposes | src/infra/fake_fs/commands.py:138-154 | Resolving a relative `q` from the result of `p` equals resolving `p/q`. |
| Paths.PathSteps | src/infra/fake_fs/commands.py:138-154 | A name goes down, `..` up again except from the root, `.` and the empty path nowhere; an absolute path resolves alike from everywhere. |
| Paths.CanonicalIsFixed | src/infra/fake_fs/commands.py:138-154 | A canonical path resolves to itself from anywhere. |
| Paths.PartsOfRender | src/infra/fake_fs/commands.py:138-154 | Splitting a rendered path gives its names back. |
| Paths.LookupAgreesIff | src/infra/fake_fs/filesystem.py:29-38 | `resolve_path` looks up the row that `normalize_path` names if and only if the path does not begin with exactly two slashes (section 4.13 of POSIX.1-2017). |
| FakeFs.CanonicalParent | src/infra/fake_fs_datastore.py:124-126 | `dirname` and `basename` of a canonical path are its front and its last name. |
| FakeFs.FakeFSDataStore.Mkdir | src/infra/fake_fs_datastore.py:124-144 | INSERT of a directory row with the parent and name taken from the path. |
| FakeFs.FakeFSDataStore.UpsertNode | src/infra/fake_fs_datastore.py:87-122 | INSERT OR REPLACE of a row with parent and name taken from the path, the root without parent. |
| FakeFs.UpsertMakes | src/infra/fake_fs_datastore.py:87-122 | Seeding writes one row, under the directory and the name that make up its path; the root lies nowhere and is its own name. |
| FakeFs.SeedKeepsTree | src/infra/fake_fs_datastore.py:87-122 | Seeding a directory that has one to stand in, or a file that replaces no directory, keeps the tree; a file without a directory becomes an allowed orphan. |
| FakeFs.SeededIsTree | src/infra/fake_fs_data_handler.py:169-195 | So upserting such nodes in order, as for the seed profile, gives a tree whose new orphans are seeded files. |
| FakeFs.FakeFSDataStore.WriteFile | src/infra/fake_fs_datastore.py:146-169 | INSERT OR REPLACE of a file row: it overwrites whatever was there. |
| FakeFs.Session.HandleCd | src/infra/fake_fs/commands.py:67-78 | The session moves to the first candidate between double bars that is a directory and says where it is; otherwise it stays and says that there is none. |
| FakeFs.Session.HandleMkdir | src/infra/fake_fs/commands.py:81-97 | A directory row is added exactly when the path is free and its parent is a directory, without output; otherwise the message, spelt out, tells which check failed. |
| FakeFs.Session.HandleDownload | src/infra/fake_fs/commands.py:100-115 | The virtual half of a download writes the file named by the last piece of the URL, resolved from `cwd`. |
| FakeFs.CdGoesThere | src/infra/fake_fs/commands.py:67-78 | A single path: the session moves there if it is a directory, and stays otherwise. |
| FakeFs.CdTriesInOrder | src/infra/fake_fs/commands.py:71-76 | Paths between double bars are tried in order; the first that is a directory wins. |
| FakeFs.MkdirMakes | src/infra/fake_fs/commands.py:81-97 | A free path in a directory becomes one new row, an empty directory under that parent; nothing else ever changes. |
| FakeFs.DownloadMakes | src/infra/fake_fs/commands.py:100-115 | A download of a URL that ends in `/name` writes the one file `name` in the current directory, with its note as content. |
| FakeFs.SessionsAreApart | src/infra/fake_fs/commands.py:38-116 | A command changes the table or the directory of its own session, never both, and those of no other session. |
| FakeFs.MkdirKeepsTree | src/infra/fake_fs/commands.py:81-97 | Making a directory keeps the table a tree with no new orphan and removes no directory. |
| FakeFs.DownloadIsSoundIff | src/infra/fake_fs_datastore.py:146-169 | A download keeps the store a tree with no new orphan and every `cwd` an existing directory if and only if its target is not the root, nor a directory in which a session stands or that has an entry other than an allowed orphan. |
| FakeFs.OrdinaryNamesAreSafe | src/infra/fake_fs/commands.py:110-114 | An ordinary file name that names no directory is always safe; an empty, `.` or `..` name never is. |
| FakeFs.ExecKeepsInv | src/infra/fake_fs/commands.py:67-115 | A whole command of any session keeps the tree and every current directory if and only if it is not an unsafe download. |
| FakeFs.RunsStayTreesIff | src/infra/fake_fs/commands.py:38-116 | From any tree, orphan files of the seed allowed, and on every sequence of whole commands of sessions: the shared store stays a tree without new orphans and every `cwd` stays canonical and an existing directory all along the run, if and only if every download is safe. |
| FakeFsSteps.CdIsLooksAndAct | src/infra/fake_fs/commands.py:67-78 | The look-ups of `cd` and its move, with nothing in between, are the whole command. |
| FakeFsSteps.MkdirIsThreeSteps | src/infra/fake_fs/commands.py:81-97 | Likewise the two look-ups of `mkdir` and its insertion. |
| FakeFsSteps.TakenPathIsKept | src/infra/fake_fs_datastore.py:124-144 | An insertion whose path another session has taken since changes nothing. |
| FakeFsSteps.StepIsSoundIff | src/infra/fake_fs/commands.py:67-115 | A single look-up or write of any session keeps the store a tree, every `cwd` a directory and every earlier look-up true, if and only if it is not a download to the root or to a directory in use. |
| FakeFsSteps.InterleavingsAreSoundIff | src/infra/fake_fs/commands.py:67-115 | On every interleaving of the look-ups and writes of sessions, all of that holds all along the run if and only if no download hits the root or a directory in use: one with an entry, a session in it, or a session that has looked it up. |
| FakeFsSteps.FileFetchesAreSound | src/infra/fake_fs/commands.py:67-115 | In particular on every interleaving in which no download is aimed at the root or at a directory when it is written. |
| FakeFsSteps.LookThenFetchBreaks | src/infra/fake_fs/commands.py:73-75 | A schedule that breaks the tree with a download that is safe among whole commands: between the look-up of `cd` and its move, another session replaces the directory by a file. |
| FindSubtree.LikeLiteral | src/infra/fake_fs_datastore.py:73-85 | Without `%` and `_` a LIKE pattern matches exactly the case variants of itself, ASCII letters only. |
| FindSubtree.FoldsAlikeIff | src/infra/fake_fs_datastore.py:78-81 | LIKE takes two characters for one exactly when they are equal or the two cases of one ASCII letter. |
| FindSubtree.LikeCut | src/infra/fake_fs_datastore.py:78-80 | What matches `x/%` has a slash right behind something that matches `x`, wildcards of `x` included. |
| FindSubtree.ReachableIff | src/infra/fake_fs_datastore.py:63-71 | In a tree, repeatedly listing directories reaches exactly the root and the rows whose paths begin with it, orphans excepted: parent links and path prefixes agree. |
| FindSubtree.SubtreeCoversWalk | src/infra/fake_fs_datastore.py:73-85 | `list_subtree` returns every row under the root, whatever the names: all that the walk reaches and the orphans below. |
| FindSubtree.SubtreeIsWalkIff | src/infra/fake_fs_datastore.py:73-85 | For every root, `list_subtree` is exactly the walk and the orphans below the root, if and only if the root does not match, as a LIKE pattern, another path below which a row lies that is not under the root. |
| FindSubtree.PlainStrayIff | src/infra/fake_fs_datastore.py:79 | For a root without `%` and `_`, those paths are exactly the others that differ from it in case only and below which some row lies. |
| FindSubtree.StrayIsDirectory | src/infra/fake_fs_datastore.py:79 | In a tree without orphans, each of them is a directory that holds an entry. |
| FindSubtree.UnderscoreStrays | src/infra/fake_fs_datastore.py:79 | A tree at which the two differ: `/a_b` beside a directory `/axb` that holds a file. |
| FindSubtree.Find | src/infra/fake_fs_data_handler.py:558-597 | Nothing without such a path, else in ascending order exactly the rows of `list_subtree` that pass the name filter and, for `-type d` and `-type f`, are or are not directories. |
| FindSubtree.FindPrintsTheWalk | src/infra/fake_fs_data_handler.py:584-597 | In a tree, and without such paths, `find` lists exactly the filtered walk and orphans below the root, sorted. |
| Ordering.LessIff | src/infra/fake_fs_data_handler.py:597 | The order of the listing: a text stands before its continuations, and before texts with a greater character where the two first differ. |
| Flatten.FlattenFs | src/infra/json_to_sqlite.py:7-38 | The recursion appends to the shared list exactly the rows of the tree, and nothing else. |
| Flatten.FlattenTree | scripts/fakefs/fs_json_to_jsonl_gz.py:6-26 | The recursion returns the same rows, file content dropped. |
| Flatten.RowsAreDistinct | src/infra/json_to_sqlite.py:7-38 | With ordinary names all emitted paths are distinct. |
| Flatten.ParentsComeFirst | src/infra/json_to_sqlite.py:7-38 | Every emitted row but the first has its parent emitted earlier, as a directory. |
| Flatten.BuildInverts | src/infra/json_to_sqlite.py:7-38 | Rebuilding from parent links gives the tree back, whatever foreign rows follow. |
| Flatten.FlattenRoundTrip | src/infra/json_to_sqlite.py:7-38 | Flattening from the root: distinct paths, parents first, and the rows rebuild the tree. |
| Flatten.FlattenTreeRoundTrip | scripts/fakefs/fs_json_to_jsonl_gz.py:6-38 | The written rows, root row first, rebuild the tree up to file content. |
| Flatten.RowsAreNodes | src/infra/json_to_sqlite.py:7-38 | The rows are exactly the nodes of the tree: one for each, with its path, parent, name, kind, metadata and content, a directory with the dump of its entries. |
| IocStores.Connection.UpsertIoc | src/api/ioc_store.py:123-188 | Merges one indicator: earliest first and latest last stamp, greatest confidence, union of categories, source addresses and links. |
| IocStores.Connection.ReplaceCampaigns | src/api/ioc_store.py:221-244 | Replaces all campaigns and rebuilds all links, or rolls back when two share an id. |
| IocStores.Connection.Commit | src/api/ioc_store.py:111-118 | The open transaction becomes the committed state. |
| IocStores.Connection.Rollback | src/api/ioc_store.py:111-118 | The tables are again as last committed. |
| IocStores.Connection.SetCursor | src/api/ioc_store.py:254-258 | Sets the offset of one file. |
| IocWriters.ProcessFileStepwise | src/api/ioc_writer.py:155-255 | The line loop and the cursor update change the open transaction as the fold over the unread lines does. |
| IocWriters.Poll | src/api/ioc_writer.py:281-285 | All files in one transaction: committed together, or not at all when a statement raises. |
| IocWriters.SummaryIsUnique | src/api/ioc_writer.py:155-255 | The order-independent merge fixes every row and the whole address table. |
| IocWriters.UpsertSummarises | src/api/ioc_store.py:123-188 | Upserting an indicator extends the merge by exactly what it says. |
| IocWriters.EventSummarises | src/api/ioc_writer.py:185-222 | Processing an event, stamped or not, extends the merge by exactly what it says at that time, category included. |
| IocWriters.LinesRecount | src/api/ioc_writer.py:170-222 | Processing lines extends what the tables recount by exactly what the lines claim, an absent stamp being the time of processing. |
| IocWriters.RecountIsUnique | src/api/ioc_writer.py:155-255 | What two tables recount fixes their keys, addresses, confidences and categories, and the time span of every row whose claims carry their time. |
| IocWriters.ReprocessingIsSilentIff | src/api/ioc_writer.py:191 | From any summarised tables, processing an event again at another time changes nothing if and only if the event carries a stamp or the new time lies inside the recorded span of every row it merges into: an event without one takes the time of the poll. |
| IocWriters.ReplayMovesUnstamped | src/api/ioc_writer.py:191 | An input at which a replay changes a row: an event without a stamp, processed again later. |
| IocRuns.StepKeepsInv | src/api/ioc_writer.py:260-298 | Every append, read, failure, commit, crash, cursor reset and campaign replacement keeps both the committed tables and the open transaction a summary of their log prefixes. |
| IocRuns.RunsSummariseTheLog | src/api/ioc_writer.py:260-298 | On every run over any log, the committed tables recount exactly the committed log prefixes, an absent stamp being one or more times of committed reads, and every link, committed or in the open transaction, is justified by a shared address. |
| IocRuns.StampedRunsSummarise | src/api/ioc_writer.py:155-255 | Where all lines carry their time, the committed tables are exactly the merge of the committed prefixes: earliest and latest stamp, greatest confidence, union of categories and addresses. |
| IocRuns.SamePrefixesSameTables | src/api/ioc_writer.py:155-255 | Two runs with equal committed prefixes have alike tables, however polls, crashes and replays fell: only spans of rows with an unstamped claim may differ. |
| IocRuns.DoneNeverShrinks | src/api/ioc_store.py:254-258 | No step of any run shortens a committed prefix, which never runs ahead of the open transaction or of the log. |
| IocRuns.ReplayIsReading | src/api/ioc_store.py:247-258 | After a crash, reading any file again from offset zero gives the tables that reading on would have given. |
| IocRuns.ReplayChangesNothing | src/api/ioc_store.py:247-258 | After a crash, replaying a fully committed file from offset zero changes no row and no address, spans of unstamped claims excepted. |
| IocRuns.ReplacedLinksAreExact | src/api/ioc_store.py:221-244 | Right after campaigns are replaced, on any log, an indicator is linked to a campaign if and only if they share an address. |
| IocRuns.PollIsRun | src/api/ioc_writer.py:281-285 | What a poll commits is what the run of its reads and its commit commits. |
| IocRecords.RunsRecordTheEvents | src/api/ioc_writer.py:163-222 | On every run, in the fields of the committed events alone: a row stands for exactly the addresses and indicators they mention, linked to exactly their addresses; its confidence is the highest given (0.95 for addresses), its categories are exactly those given, its times the earliest and latest stamps, an absent one being a time of processing. |
| IocRecords.ReadingOn | src/api/ioc_writer.py:163-174 | Behind a read of a whole file, the next read takes up exactly what was appended since. |
| IocRecords.ReadEventsAreCommitted | src/api/ioc_writer.py:163-222 | What is appended, read and committed is on record, every event of every line. |
| IocRecords.CommittedStays | src/api/ioc_writer.py:163-222 | And stays so whatever happens next. |
| IocRecords.ResetRereads | src/api/ioc_writer.py:163-174 | After a cursor reset the whole file is processed again. |
| IocRecords.TornIsUndone | src/api/ioc_store.py:111-118 | A statement that fails half-way can never be committed, nor what follows it; a rollback restores the committed tables. |
| IocRecords.RepeatedIdRollsBack | src/api/ioc_store.py:221-244 | Replacing campaigns with a repeated id undoes the whole transaction. |
| EditDistance.Levenshtein | src/analysis/bot_human_analyzer.py:233-244 | The two-row program, its swap of the arguments by length included, returns the edit distance. |
| EditDistance.NextRow | src/analysis/bot_human_analyzer.py:239-243 | The inner loop turns row i - 1 of the distance table into row i. |
| EditDistance.ScriptsCostAtLeast | src/analysis/bot_human_analyzer.py:233-244 | No edit script between two texts is cheaper than their distance. |
| EditDistance.BestScript | src/analysis/bot_human_analyzer.py:233-244 | Some edit script costs exactly the distance. |
| EditDistance.DistanceIsSymmetric | src/analysis/bot_human_analyzer.py:234-235 | The distance is symmetric, which the swap relies on. |
| EditDistance.DistanceIsZeroIff | src/analysis/bot_human_analyzer.py:233-244 | It is zero on equal texts only. |
| EditDistance.CorrectedIff | src/analysis/bot_human_analyzer.py:257-265 | A command counts as the correction of the one before exactly when both, stripped, differ, have five characters or more, and at most three edits lead from one to the other. |
| EditDistance.TriangleInequality | src/analysis/bot_human_analyzer.py:233-244 | It satisfies the triangle inequality. |
| EditDistance.CountTypoCorrections | src/analysis/bot_human_analyzer.py:257-265 | Counts exactly the neighbouring commands, stripped and longer than four, at a distance of one to three. |
| EditDistance.CountPasteBursts | src/analysis/bot_human_analyzer.py:268-278 | Equals the sum, over the maximal runs of delays under the threshold, of a third of the length rounded down. |
| CampaignDetector.GroupBy | src/analysis/campaign_detector.py:115-143 | The grouping loop finds the clues by first appearance and the sessions of each in order. |
| CampaignDetector.CluesByAppearance | src/analysis/campaign_detector.py:115-143 | The clues of a kind stand in the order of the first sessions that have them. |
| CampaignDetector.ChosenFacts | src/analysis/campaign_detector.py:257-308 | Clues that become campaigns stand for distinct raw groups, and every raw group is that of one of them. |
| CampaignDetector.MakeCampaign | src/analysis/campaign_detector.py:150-180 | The fields of a fresh campaign: sorted shared commands behind the marker, addresses, size and window of its sessions, and verdict and confidence from addresses and shared commands. |
| CampaignDetector.AddGroups | src/analysis/campaign_detector.py:257-308 | A pass over one kind of clue registers one campaign for each chosen clue, in order, numbered from one. |
| CampaignDetector.SignalMarkers | src/analysis/campaign_detector.py:186-191 | The first five distinct items that begin with `[`, ordinary commands included. |
| CampaignDetector.MarkersByAppearance | src/analysis/campaign_detector.py:186-191 | The markers stand in the order in which they first appear, each once. |
| CampaignDetector.Campaign.Rebuild | src/analysis/campaign_detector.py:193-220 | All fields after a merge are those of the merged sessions; ten commands at most, markers first; a blank command counts as shared for the verdict. |
| CampaignDetector.SortRanked | src/analysis/campaign_detector.py:234 | A stable sort by confidence and size, and by start where asked. |
| CampaignDetector.FindTarget | src/analysis/campaign_detector.py:222-239 | The first kept group that overlaps by at least 60% of the smaller one. |
| CampaignDetector.Place | src/analysis/campaign_detector.py:234-250 | One round in place: the first matching kept campaign absorbs this one, or it is kept; nothing else changes. |
| CampaignDetector.Consolidate | src/analysis/campaign_detector.py:230-255 | The in-place loop over parallel lists refines the value-level consolidation of the campaigns stably sorted, and ranks and numbers what is kept. |
| CampaignDetector.ConsolidatedIsGreedy | src/analysis/campaign_detector.py:230-250 | The session sets of the outcome are those of greedy merging of sets alone. |
| CampaignDetector.ConsolidationConserves | src/analysis/campaign_detector.py:193-250 | Every campaign lies inside an output at least as sure, every output is a union of campaigns, and its addresses, size, window and commands are those of its sessions. |
| CampaignDetector.NothingMergesIff | src/analysis/campaign_detector.py:222-250 | Consolidation leaves the groups alone if and only if none should merge with an earlier one, and otherwise ends with fewer. |
| CampaignDetector.OutputsMayStillMerge | src/analysis/campaign_detector.py:234-250 | For any two disjoint groups of at least two followed by their union, greedy merging ends with two groups that should merge. |
| CampaignDetector.RivalsShouldStillMerge | src/analysis/campaign_detector.py:230-255 | Detection on two subnets that share one tool and nothing else does place them in that order, by confidence, and leaves two campaigns whose groups should merge: the outcome need not be a fixpoint. |
| CampaignDetector.TwoPairsAreRivals | src/analysis/campaign_detector.py:150-171 | Four sessions, two from each subnet, are such an input. |
| CampaignDetector.FourSessions | src/analysis/campaign_detector.py:150-171 | Such an input exists, spelt out with addresses, subnets and commands. |
| CampaignDetector.DetectRivals | src/analysis/campaign_detector.py:79-310 | Running detection on such sessions does end with two campaigns, whose groups should merge. |
| CampaignDetector.CalmIsFinal | src/analysis/campaign_detector.py:234-250 | The outcome is final whenever no group that absorbs another should then merge with a further kept one. |
| CampaignDetector.DetectCampaigns | src/analysis/campaign_detector.py:79-310 | The whole pass: campaigns of the distinct raw groups, consolidated surest first. In the fields of the sessions: those alike in one of the five ways end in one output, and every session of an output shares a way with others of it; addresses, size, window, commands, subnet, network, verdict and confidence of each output follow from its sessions; every raw group lies inside an output at least as sure; outputs are ranked and numbered from one. |
| CampaignDetector.RawGroupIsAlike | src/analysis/campaign_detector.py:115-144 | A raw group is all sessions with one non-empty subnet, fingerprint, script or scanner, two at least, or of one network, three at least. |
| CampaignDetector.AlikeIsRawGroup | src/analysis/campaign_detector.py:115-144 | And every such set of sessions is a raw group. |
| CampaignDetector.OutputsKeepTogether | src/analysis/campaign_detector.py:115-310 | Sessions alike in one of these ways lie in one output, and every session of an output is alike, in one of these ways, with others of that output only. |
| CampaignDetector.MadeIsJudged | src/analysis/campaign_detector.py:150-308 | A group as found, in the fields of its sessions: confidence and verdict by addresses and common commands; by subnet first, then by fingerprint, script and scanner with the marker that says so, then by network; the first ten common commands in order. |
| CampaignDetector.RebuiltIsJudged | src/analysis/campaign_detector.py:193-220 | A merged group likewise: three addresses with a common command are coordinated, markers or two addresses make a shared tool, the rest is coincidence; at most five markers before the first common commands, ten in all; subnet and network only where there is a single one. |
| CampaignDetector.HeldAreJudged | src/analysis/campaign_detector.py:230-255 | Every output of a consolidation is a group as found or a merged one. |
| CampaignDetector.ChosenIsFoundNow | src/analysis/campaign_detector.py:257-308 | Of the passes that find the same group, the earliest names it. |
| CampaignDetector.TiesInOrder | src/analysis/campaign_detector.py:234 | Of two groups that rank alike, the one found first is placed first. |
| CampaignDetector.MergesAtSixtyPercent | src/analysis/campaign_detector.py:222-228 | Two groups merge exactly when they overlap by 60% of the smaller one or more. |
| ReportServer.ReportApi.CheckGenerating | src/api/ioc_server.py:276-279 | The first critical section of a generate request is one step of the protocol, and answers whether a report is under way. |
| ReportServer.ReportApi.RegisterThread | src/api/ioc_server.py:333-335 | The second critical section is one step: it names the new thread, whatever entry is there. |
| ReportServer.ReportApi.StartThread | src/api/ioc_server.py:336 | Starting the thread, or failing to, is one step. |
| ReportServer.ReportApi.ExposeProcess | src/api/ioc_server.py:297-299 | Exposing the process is one step, taken only while the entry is there, and keeps its thread. |
| ReportServer.ReportApi.WriteRow | src/api/ioc_server.py:287-331 | Every row write of a worker is one step, exceptions included. |
| ReportServer.ReportApi.RecheckGenerating | src/api/ioc_server.py:313-317 | Looking again is one step: the worker goes on to its result or leaves. |
| ReportServer.ReportApi.PopAtEnd | src/api/ioc_server.py:329-331 | The final pop is one step and removes the entry of the campaign, whichever thread it names. |
| ReportServer.ReportApi.PopForCancel | src/api/ioc_server.py:344-345 | The critical section of a cancel is one step and returns the entry, if any. |
| ReportServer.ReportApi.WriteForCancel | src/api/ioc_server.py:357-359 | The first write of a cancel is one step; if it raises, the request ends there. |
| ReportServer.ReportApi.DeleteForCancel | src/api/ioc_server.py:361-364 | Its deletion of the row is another, and may raise too. |
| ReportServer.CheckThenRegister | src/api/ioc_server.py:276-335 | A check and a registration with nothing between them are the combined step. |
| ReportServer.EntriesStayLive | src/api/ioc_server.py:276-338 | On every interleaving, an entry of `_generating` names a thread of its campaign that has not run its final pop. |
| ReportServer.QuiescentIsEmptyIff | src/api/ioc_server.py:276-364 | On every interleaving, a server at rest holds exactly the entries of threads that could not be started: it is empty if and only if there are none. |
| ReportServer.FailedStartLeavesEntry | src/api/ioc_server.py:334-336 | A run at which it is not: `t.start()` raises behind the registration. |
| ReportServer.OneWorkerIff | src/api/ioc_server.py:276-364 | On every run, cancels included: no campaign ever has two live workers if and only if every registration that takes effect finds its campaign without a live worker. |
| ReportServer.OneWorkerWithCancelsIff | src/api/ioc_server.py:276-364 | On every run, cancels included: if and only if every registration that takes effect finds its campaign out of `_generating`, save under a thread that could not be started, and every cancelled thread of the campaign stopped. |
| ReportServer.OneWorkerWithoutCancelsIff | src/api/ioc_server.py:276-338 | On every run without cancels: if and only if no registration that takes effect finds its campaign in `_generating`, under a thread that could be started. |
| ReportServer.AtMostOneWorker | src/api/ioc_server.py:276-338 | With check and registration in one step and no cancel, a campaign never has two live workers. |
| ReportServer.TwoWorkersByRace | src/api/ioc_server.py:276-335 | Two requests that both check before either registers start two workers for one campaign. |
| ReportServer.TwoWorkersByCancel | src/api/ioc_server.py:342-364 | So do a cancel and a second request, even with one critical section. |
| ReportServer.OrphanedIff | src/api/ioc_server.py:285-364 | On every run, a row says `generating` with no worker left to replace it if and only if the last worker that owed it left it, cancelled or unable to write its failure, and nothing wrote or deleted it since. |
| ReportServer.StaleRowIff | src/api/ioc_server.py:285-364 | So that is exactly when a server at rest still holds a `generating` row. |
| ReportServer.AnswerAtRest | src/api/ioc_server.py:256-269 | At rest, a status request answers `generating` exactly for threads that could not be started and for rows so left behind. |
| ReportServer.CarefulRunsSettle | src/api/ioc_server.py:276-364 | Cancels, failing requests and two-section requests included: if registrations find no live worker, cancels come after the first write, and the rows of failures and of cancels can be written, a server at rest holds no `generating` row. |
| ReportServer.CancelLeavesGeneratingRow | src/api/ioc_server.py:285-364 | A cancel before the first write of the worker leaves a `generating` row on a server at rest. |
| ReportServer.RaceLeavesGeneratingRow | src/api/ioc_server.py:276-338 | Without any cancel, so does the slower of two workers that a race started. |
| ReportServer.FailedCancelLeavesGeneratingRow | src/api/ioc_server.py:342-364 | So does a cancel after the first write, if its own row write raises. |
| ReportOutcomes.RowsAreEarned | src/api/ioc_server.py:285-331 | However requests, cancels and workers interleave: a row says finished only if a child of its campaign ended well, and error only if one failed, ran too long, or something raised. |
| ReportOutcomes.ChildDecides | src/api/ioc_server.py:303-331 | An undisturbed worker writes finished for a child that ended well and an error for one that did not, and its campaign is no longer listed. |
| ReportOutcomes.TimeoutIsError | src/api/ioc_server.py:301-310 | A child that runs too long leaves an error. |
| ReportOutcomes.ExceptionIsError | src/api/ioc_server.py:324-331 | So does an exception, wherever the worker stands. |
| ReportOutcomes.StatusTells | src/api/ioc_server.py:250-269 | A status request answers with the row so written, with generating for a listed campaign, and with not found for one without entry and row. |
| ReportOutcomes.CancelForgets | src/api/ioc_server.py:342-366 | A cancel with nothing in between leaves neither entry nor row of its campaign. |
| PasswordManager.Manager.AttemptPassword | src/core/password_manager.py:81-127 | One attempt answers and changes the three tables as one step of the validator machine does. |
| PasswordManager.RunsKeep | src/core/password_manager.py:74-127 | On every run, a tracked count equals the rejections of its key since the last counted acceptance and stays below its threshold. |
| PasswordManager.RejectionsAreBounded | src/core/password_manager.py:105-127 | Between two counted acceptances a key sees at most `max_attempts` - 1 rejections of short unknown passwords. |
| PasswordManager.AcceptedAtThreshold | src/core/password_manager.py:105-127 | Without early luck, a counted attempt is accepted if and only if it completes the threshold. |
| PasswordManager.AllowedGrows | src/core/password_manager.py:81-127 | The allowed set only grows and stays disjoint from the blacklist, which holds over-long passwords only. |
| PasswordManager.AcceptedForGood | src/core/password_manager.py:81-127 | A password accepted once is accepted from everyone ever after. |
| PasswordManager.OverlongAcceptedIff | src/core/password_manager.py:81-100 | An over-long password is accepted if and only if it is configured or the master one. |
| PasswordManager.AcceptedIff | src/core/password_manager.py:95-127 | On every run: a try is accepted if and only if its password is known, or short enough and lucky or as late, among the tries of its key since the last counted acceptance, as the threshold drawn at the first of them says. |
| PasswordManager.BlacklistedIff | src/core/password_manager.py:99-103 | On every run, the blacklist holds exactly the passwords rejected for their length. |
| PasswordManager.AddressIsLetIn | src/core/password_manager.py:105-125 | An address that keeps trying is let in after `maxAttempts` tries at the latest, however many sessions it opens. |
| PasswordManager.AttemptTouchesOneCount | src/core/password_manager.py:105-108 | A try touches the count of its address alone, or that of its session where there is no address. |
| PostgresFraming.ReadMessage | src/honeypots/postgresql_honeypot.py:127-203 | The receive loop returns the same message and leaves the same rest however the body is cut into chunks, and answers an SSL or GSSAPI request, and nothing else, with the byte `N`. |
| PostgresFraming.Beginnings | src/honeypots/postgresql_honeypot.py:127-185 | The reading byte by byte: an SSL or GSSAPI request, any other zero byte, a cut header, a body as long as its big-endian length says or as the stream holds. |
| PostgresFraming.Client.SendMessage | src/honeypots/postgresql_honeypot.py:205-227 | Sends the type, the length with its own four bytes, and the body, or nothing when the length does not fit. |
| PostgresFraming.ReadFrame | src/honeypots/postgresql_honeypot.py:127-227 | Reading a sent message followed by anything returns its type and body and leaves the rest. |
| PostgresFraming.StreamRoundTripIff | src/honeypots/postgresql_honeypot.py:127-227 | Reading any concatenation of sent messages returns the same messages in order if and only if none has type zero. |
| PostgresFraming.SslRequestIsAmbiguous | src/honeypots/postgresql_honeypot.py:150-169 | A message of the client can read like an SSL request. |
| PostgresFraming.BuildDataRow | src/honeypots/postgresql_honeypot.py:306-325 | The loop that grows `body` computes the encoding of the values, or raises where a field does not fit. |
| PostgresFraming.RowDecodesIff | src/honeypots/postgresql_honeypot.py:306-325 | A data row decodes to the same values and NULLs if and only if its count and lengths fit the signed fields of section 55.7 of the PostgreSQL 15 documentation. |
| PostgresFraming.ManyNullsAreMisread | src/honeypots/postgresql_honeypot.py:306-325 | A row at which decoding fails: 32768 NULLs. |

## Left out

- Sockets, SSH, Flask, HTTP and the model providers: foreign calls, inputs of the model.
- Non-string and missing inputs of the normaliser, and values of requests that are not strings.
- Unicode: characters are Dafny's, the blanks of `str.strip` are listed one by one, and upper-casing of HTTP verbs covers ASCII.
- `SqliteDataStore.delete`, `dump` and its LIKE search; requests without any column key, for which the statement is malformed; prompt hints and the route dispatch.
- `DataHandlers.DataHandler.Request`: terms that name no column are excluded by a precondition, because the program then raises an SQL error.
- `DataHandlers.AnswersAreConsistent`: speaks of whole requests, `DataHandlerSteps` of overlapping ones; assumes that stored answers and replies are not empty; `AnsweredAgainIff` says exactly what empty ones do.
- `handle_ls` and its formats, the on-disk half and the output of a download, `grep`, argument parsing of `find` and shell redirections; rows are modelled by parent, name, kind and content.
- The text of the seed profile; its two files without a directory (src/infra/fake_fs/default_profile.py:139 and :145) are orphans in the sense of `IsTree`.
- The first download handler, which runs before `handle_download` and writes `/tmp/<name>`: the download modelled is the fallback behind it.
- Default permissions, owners and times in the flatteners; how a directory node is dumped as JSON is a parameter.
- The sessions table, `session_ids`, `context` and `updated_at`: their content depends on how lines fell into batches.
- Compressed logs and half-written last lines: logs grow by whole lines. `_iocs_from_event` is given as the list of indicators of an event, and files on disk do not change between polls.
- Statements of the limiter are not interleaved: one call is one step.
- Extraction of addresses, fingerprints, commands and tools from events, which gives the session data of `DetectCampaigns`; a campaign id is its number, and the listing order of the addresses of a campaign that was never merged is not fixed by the program.
- The overlap ratio is compared exactly (5 times the overlap against 3 times the smaller group), not in floating point.
- Scores of the session analysis: weights and rounding only.
- A restart of the report server is no step: it empties `_generating` and keeps the rows. Campaign ids come upper-cased. Report content, log files and the killing of processes; threads are steps, one for each critical section or row write; a step that only moves a thread on has no method of its own.
- Credential files of the password validator, and the random choice of thresholds beyond their range.
- Message headers are read whole, bodies in any chunks; text is given as bytes; socket errors end the connection as a closed stream does.
- Website, metrics, enrichment, STIX export, and the older MySQL, Redis, Telnet and TCP handlers: no property beyond those above.
