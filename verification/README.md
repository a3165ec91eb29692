# A verified model of pywin32's stateful logic

Most of pywin32 wraps an API. This project models the places where it has logic of its own, and proves what
that logic keeps over whole runs. Each piece has a specification on values and, where the source works by
changing things, classes and loops that are proved to refine it.

* **ISAPI thread pool** (`PoolProtocol`, `PoolTheorems`, `PoolProgress`, `ThreadPool`). Workers, completion
  port, flags, tokens and the terminating thread as interleaved atomic steps. A worker goes on serving until it is
  told to stop or a call outside its handlers raises, and the pool rests only when every request is answered.
  Shutdown reaches every worker although a late-starting worker overwrites its cleared flag; it is bounded;
  requests are dispatched at most once and under their own token, whatever raises.
* **SQL parameter styles** (`SqlText`, `SqlAssembly`, `NamedStyle`, `FormatStyle`, `FormatMeaning`, `AdoCursor`,
  `Statements`, `StyleSwitch`, `CursorCache`). The two rewriters against one-pass readers of the text and against
  printed statements: when the meaning survives, from the text to the bound values, and over which runs of calls, changes of style included, the
  command text a cursor keeps is the one a fresh cursor would send.
* **Transactions** (`Transactions`). `transaction_level` against the provider's nesting level, and what the
  database keeps, over runs in which `autocommit` is turned on and off and any provider call may fail.
* **Wrappers and C++ pointers** (`AssocWorld`, `AssocTheorems`, `AssocMake`, `AssocManager`). The handle map
  with its one-entry cache, the reference counts under both of Python's protocols, the correspondence between
  the map and the wrappers' own fields, destructors included, and which wrapper `make` hands out to whom.
* **Batched compilation** (`ClCommands`, `Grouping`, `Batching`, `BatchTheorems`, `MsvcCompiler`,
  `ExtensionBuild`). Merging cl.exe command lines as a transformation of a build: when it builds the same
  objects, when it is refused, in which order commands start, and when the whole raises.
* **Hook lists** (`Hooks`). References held by hook entries, conserved through frees that are entered again
  from inside a free.
* **DDE conversations** (`Conversations`). The list and the handles, and the walk of `Shutdown` along a list
  that every visit shortens.
* **PPM images** (`Dib`) and **AutoDuck dumps** (`DumpToc`, `DumpShape`). A padded, mirrored, channel-reversed
  copy and its inverse; a line parser, the printer it inverts, and what it raises for any other file.

`Counting` and `Wrappers` hold shared arithmetic and result types.

## What turned out not to hold everywhere

Where a property fails on some inputs, the model keeps the code as it is, the property is proved as an
equivalence with a condition on the input, and a lemma shows an input or a run that fails.

* The named style keeps the meaning of a text exactly if the quotes are in order, no literal is empty, and the
  code has neither a bare colon nor a `?` (`NamedKeepsMeaningIff`, `NamedEndToEnd`). A call on a text without
  parameters binds the keys of its mapping (`KeysAreNoValues`).
* In the format style an empty literal is harmless exactly at the start of the text (`FormatIsInvertibleIff`,
  `EmptyLiteralIsLost`), and a call keeps its meaning exactly if moreover no `?` stands outside literals, every
  placeholder is closed, and a mapping is asked for a name (`FormatCallKeepsMeaningIff`).
* A cursor does call by call what fresh cursors would do exactly if every call forms its text anew, asks for the
  rewriting its text was formed with or for one that makes the same of the text, or finds a left-over text that
  happens to be right (`CacheIsInvisibleIff`; for the sets of a batch `BatchIsFreshIff`). Texts are left over by
  a rewriting that raised (`FailedRewriteLeavesStaleText`) and by `callproc` (`ProcedureNameIsSent`).
  `adodbapi/quick_reference.md` at line 630 restricts the reuse of an operation only after a change of
  paramstyle (`NamedForFormatIff`, `FormatForNamedIff`); parameters of another sort under one paramstyle do
  the same harm (`TwoWaysHarm`, `EmptyTupleHarms`).
* `transaction_level` is right on every open connection except after a `close` whose rollback succeeded and
  whose `Close` failed (`LevelIsTheProvidersIff`, `ALevelThatIsStale`).
* Turning `autocommit` off opens a transaction exactly if one was open; turned on and off again, every write
  stays durable at once and `commit` raises (`AutocommitOff`, `CommitRaisesIff`).
* A cached "no object" is never wrong (`CacheIsInvisible`), which answers the question in the comment of
  `win32assoc.cpp` at line 141; only inside `cleanup()` is there a window (`CleanupWindowIff`,
  `ALookupThatIsWrong`). A wrapper made for a pointer while the destructor of its old wrapper runs Python code
  loses its entry (`NewWrapperLosesItsEntry`, `ADestructorHalfWay`).
* The destructor of a command target leaves the references of entries that code run by its drops has hooked into
  a list it has passed, and no others (`DestroyWithOtherCode`, `AListThatSurvives`).
* The batcher compares object names, while cl names objects after sources. The docstring at `setup.py:1117`
  takes the two for the same; merging keeps the build exactly where they are (`BuildIsPreservedIff`,
  `ABuildThatChanges`).
* `Shutdown` of the DDE server relies on no disconnect being delivered for the entry right behind the one being
  terminated (`ShutdownEmptiesIff`, `AWalkThatIsOvertaken`).
* A colour table whose given size in bytes does not fit a WORD hides the pixels behind it (`GivenTableIff`).
* The last topic of a dump file is never stored (`LastTopicIsLost`).

## Model

| member | source | states |
|---|---|---|
| `PoolProtocol.NextKeepsInv` | isapi/threaded_extension.py:39-53 | every atomic step of every thread keeps the invariant of the pool: shutdown packets owed, tokens, requests in one place |
| `PoolProtocol.RunKeepsInv` | isapi/threaded_extension.py:39-131 | every schedule of such steps keeps it |
| `PoolProtocol.WorkKeepsShutdowns` | isapi/threaded_extension.py:39-53 | no step of a worker, whatever raises, costs another worker its shutdown packet |
| `PoolProtocol.NextKeepsTokens` | isapi/threaded_extension.py:119-131 | a thread carries a user's token exactly while it works for that user |
| `PoolProtocol.ResettingKeepsRequest` | isapi/threaded_extension.py:129-131 | the finally clause ends a request exactly once, whatever came before |
| `PoolProtocol.ImpersonationKeepsRequest` | isapi/threaded_extension.py:121-123 | a request whose token cannot be had is kept as refused and never dispatched |
| `PoolProtocol.NextKeepsRequest` | isapi/threaded_extension.py:92-131 | no step loses or doubles a request |
| `PoolTheorems.ShutdownStrandsNobody` | isapi/threaded_extension.py:39-53 | after the posting loop there are at least as many shutdown packets as workers still owed one, in every interleaving, late starts included |
| `PoolTheorems.NoEarlyShutdown` | isapi/threaded_extension.py:98-102 | before the posting loop no worker can meet a shutdown packet |
| `PoolTheorems.NobodyBlocks` | isapi/threaded_extension.py:41-53 | after the posting loop every worker that has not exited can move |
| `PoolTheorems.WorkDecreases` | isapi/threaded_extension.py:41-53 | every worker step uses up work |
| `PoolTheorems.ShutdownIsBounded` | isapi/threaded_extension.py:98-112 | a schedule without new requests makes no more worker steps than there is work |
| `PoolTheorems.ShutdownTerminates` | isapi/threaded_extension.py:98-112 | shutdown is bounded, and the schedules no worker can prolong are exactly those with all workers exited |
| `PoolTheorems.PollingExitMeansAllExited` | isapi/threaded_extension.py:105-112 | leaving the poll loop without a timeout means that every worker has exited |
| `PoolTheorems.LateStartOverwritesFlag` | isapi/threaded_extension.py:40-100 | the race exists: a worker can set its flag after all flags were cleared |
| `PoolTheorems.PostedOnce` | isapi/threaded_extension.py:92-96 | a posted request has an identity of its own |
| `PoolTheorems.RequestsAreConserved` | isapi/threaded_extension.py:42-113 | until the map is emptied each posted request is queued, held by one worker, or finished, and is dispatched at most once |
| `PoolTheorems.DispatchedAtMostOnce` | isapi/threaded_extension.py:42-126 | no request is ever dispatched twice, even after the map is emptied |
| `PoolTheorems.RequestsAreIsolated` | isapi/threaded_extension.py:119-131 | every dispatch runs under the token of its own request, and a waiting worker has none |
| `PoolProgress.WorkerEndsIff` | isapi/threaded_extension.py:39-131 | over every run a worker is done for exactly if it took a shutdown packet, found its flag down or the map empty, or a call outside the inner try raised |
| `PoolProgress.WorkerLivesIff` | isapi/threaded_extension.py:39-53 | until termination begins only a call outside the inner try that raises ends a worker: whatever Dispatch raises, it goes back to the loop test |
| `PoolProgress.RestMeansServed` | isapi/threaded_extension.py:39-131 | while serving, if no worker can move and one was never ended by a raise, the queue is empty and each posted request is finished once, or refused once for want of a token |
| `PoolProgress.EveryRequestIsServed` | isapi/threaded_extension.py:39-131 | if nothing raises and there is a worker, the pool comes to rest only when every posted request is dispatched to its end exactly once |
| `PoolProgress.ServingIsBounded` | isapi/threaded_extension.py:41-131 | and it comes to rest: the workers make at most seven steps per posted request, beside those they had left |
| `PoolProgress.PacketsLeaveInOrder` | isapi/threaded_extension.py:92-102 | packets, requests and shutdowns alike, are received in the order in which they were posted |
| `PoolProgress.PostedAreAsked` | isapi/threaded_extension.py:92-96 | the requests posted are those asked for, each for its own user, in order |
| `PoolProgress.FlagsAreCleared` | isapi/threaded_extension.py:99-100 | the flag of a worker that had started is down once the flag loop has passed it, and stays down |
| `PoolProgress.NoMorePackets` | isapi/threaded_extension.py:41-47 | a worker whose flag is down takes no packet once it has left the port |
| `PoolProgress.WaitsForEveryWorker` | isapi/threaded_extension.py:105-114 | unless the clock runs out the map is emptied and the port closed only when every worker has exited |
| `PoolProgress.PollingEnds` | isapi/threaded_extension.py:105-112 | once every worker has exited the poll loop is left after one more round of questions, whatever is posted meanwhile and however much time there is |
| `ThreadPool.ThreadPoolExtension.HttpExtensionProc` | isapi/threaded_extension.py:92-96 | posting a request is a step of the protocol |
| `ThreadPool.ThreadPoolExtension.RunTurn` | isapi/threaded_extension.py:39-53 | a statement of run |
| `ThreadPool.ThreadPoolExtension.DispatchTurn` | isapi/threaded_extension.py:119-131 | a statement of DispatchConnection, whatever raises: it leads back to the loop test unless the handler, the token calls or the reset raised |
| `ThreadPool.ThreadPoolExtension.WorkerTurn` | isapi/threaded_extension.py:39-131 | each statement of a worker is a step of the protocol |
| `ThreadPool.ThreadPoolExtension.GetExtensionVersion` | isapi/threaded_extension.py:79-90 | the workers are started by a run of the protocol |
| `ThreadPool.ThreadPoolExtension.ClearFlags` | isapi/threaded_extension.py:99-100 | the flag loop is a run of the protocol, with any other steps in between |
| `ThreadPool.ThreadPoolExtension.PostShutdowns` | isapi/threaded_extension.py:101-102 | so is the posting loop |
| `ThreadPool.ThreadPoolExtension.StillAlive` | isapi/threaded_extension.py:112 | so is the question which workers are alive |
| `ThreadPool.ThreadPoolExtension.Poll` | isapi/threaded_extension.py:105-112 | the poll loop leaves by timeout or when the list is empty |
| `ThreadPool.ThreadPoolExtension.CloseDown` | isapi/threaded_extension.py:113-114 | the map is emptied before the port is closed |
| `ThreadPool.ThreadPoolExtension.TerminateExtension` | isapi/threaded_extension.py:98-114 | termination is a run of the protocol that leaves no worker without a packet, and only a timeout leaves one alive |
| `SqlText.SplitJoins` | adodbapi/apibase.py:649-651 | cutting at apostrophes loses nothing |
| `SqlText.ReadNamedJoined` | adodbapi/apibase.py:649-683 | reading chunk by chunk is reading the whole text with a one-pass scanner, for every text |
| `SqlText.ReadMarksJoined` | adodbapi/apibase.py:649-683 | the same for texts with question marks |
| `SqlAssembly.AssembleJoins` | adodbapi/apibase.py:653-682 | when nothing is taken away the output is the chunks put back together |
| `SqlAssembly.AssembleQuotes` | adodbapi/apibase.py:654-658 | how many apostrophes the output can have |
| `SqlAssembly.QuotesKeptIff` | adodbapi/apibase.py:654-658 | the output has the apostrophes of the input exactly if the last literal is closed and nothing was taken away |
| `NamedStyle.RewriteReads` | adodbapi/apibase.py:660-681 | a rewritten code chunk shows a reader of question marks what the original showed a reader of names |
| `NamedStyle.NamedKeepsMeaningIff` | adodbapi/apibase.py:644-683 | the rewriting keeps the meaning of the text exactly for the readable texts |
| `NamedStyle.NamesAreTheParameters` | adodbapi/apibase.py:679-680 | the names returned are the parameters, in order and repeated, for every text |
| `NamedStyle.LiteralsAreCopied` | adodbapi/apibase.py:654-658 | every literal is copied verbatim into its place |
| `NamedStyle.MarksGrowByNames` | adodbapi/apibase.py:679-681 | question marks outside literals grow by exactly the names returned |
| `NamedStyle.NamedEndToEnd` | adodbapi/apibase.py:644-683 | filling the rewritten text by position with the values bound for the names is filling the original from the mapping, exactly for the readable texts |
| `NamedStyle.MissingName` | adodbapi/adodbapi.py:908-910 | a name missing from the mapping is an error on both sides |
| `NamedStyle.EmptyLiteralEatsACharacter` | adodbapi/apibase.py:655-656 | an empty literal outside literals, anywhere in a text, vanishes with the character before it, and what follows is rewritten as if it stood alone, if that holds no empty literal itself |
| `NamedStyle.BareColonIsDropped` | adodbapi/apibase.py:661-678 | a colon that begins no name makes no difference to the text and the names returned, wherever it stands outside literals |
| `NamedStyle.OpenLiteralIsClosed` | adodbapi/apibase.py:657-658 | a last literal that is left open is closed, whatever stands in it and before it |
| `NamedStyle.TakeName` | adodbapi/apibase.py:669-678 | the scan for a name stops at the first character that is not of one; which those are is `Statements.NameCharIs` |
| `NamedStyle.RewriteChunk` | adodbapi/apibase.py:660-681 | the inner loop rewrites one code chunk |
| `NamedStyle.RewriteChunks` | adodbapi/apibase.py:653-682 | the outer loop assembles all chunks |
| `NamedStyle.ChangeNamedToQmark` | adodbapi/apibase.py:644-683 | the method as a whole: its text, its names, and when the meaning is kept; on printed statements `Statements.NamedTranslates` |
| `FormatStyle.PyReads` | adodbapi/apibase.py:704-718 | a pyformat chunk has as many marks as names exactly if it had no mark of its own, and then can be restored |
| `FormatStyle.PlainReads` | adodbapi/apibase.py:719-721 | a chunk without placeholders is unchanged exactly if it has neither mark nor format code |
| `FormatStyle.LossesAreMisplacedEmptyLiterals` | adodbapi/apibase.py:697-702 | an empty literal does no harm exactly at the start of the text |
| `FormatStyle.FormatIsInvertibleIff` | adodbapi/apibase.py:686-723 | putting the names back gives the original text exactly for the restorable texts |
| `FormatStyle.EmptyLiteralEatsACharacter` | adodbapi/apibase.py:697-702 | behind any output an empty literal vanishes with the character before it, and what follows is rewritten as if it stood alone, if that holds no empty literal itself |
| `FormatStyle.EmptyLiteralIsLost` | adodbapi/apibase.py:697-702 | an empty literal behind any output, whatever follows it, makes the text one that the names returned do not put back |
| `FormatStyle.IllQuotedIsLost` | adodbapi/apibase.py:697-702 | with the quotes out of order it never does |
| `FormatStyle.RewritePyChunk` | adodbapi/apibase.py:705-718 | the inner loop; it raises exactly for an open placeholder |
| `FormatStyle.RewriteChunks` | adodbapi/apibase.py:695-722 | the outer loop |
| `FormatStyle.ChangeFormatToQmark` | adodbapi/apibase.py:686-723 | the method as a whole: when it raises, and when its result can be inverted |
| `FormatMeaning.ReadFormatJoined` | adodbapi/apibase.py:690-694 | reading chunk by chunk is reading the whole text with a one-pass scanner for `%s` and `%(name)s`, for every text |
| `FormatMeaning.CodeMarks` | adodbapi/apibase.py:704-721 | a rewritten code chunk shows a reader of question marks what the original showed a reader of placeholders, if either all of them have names or none has |
| `FormatMeaning.NamesAreCalled` | adodbapi/apibase.py:716-718 | the names returned are those of the placeholders, in order and repeated, whatever the quotes |
| `FormatMeaning.FormatKeepsMeaningIff` | adodbapi/apibase.py:686-723 | a text whose placeholders are all of one kind keeps its meaning exactly if the quotes are in order and no mark stands outside literals |
| `AdoCursor.NamedCallKeepsMeaningIff` | adodbapi/adodbapi.py:827-917 | a call with a mapping that has every name, in named or dynamic style, sends a text and values with the meaning of the original exactly if the text is readable and has a parameter; with an empty mapping, exactly if no mark stands outside literals |
| `AdoCursor.UnfilledMeansIff` | adodbapi/adodbapi.py:992-1005 | a text sent as it is, with an empty mapping, means what the original means exactly if no mark stands outside literals |
| `AdoCursor.KeysAreNoValues` | adodbapi/adodbapi.py:930-937 | for a text without parameters the keys of the mapping are bound, which is never right |
| `FormatMeaning.NoParametersIff` | adodbapi/adodbapi.py:1000-1005 | a call in format style without parameters sends the text as it is, which is right exactly if no mark stands outside literals |
| `FormatMeaning.FormatCallKeepsMeaningIff` | adodbapi/adodbapi.py:827-937 | a call in format style with a sequence or a mapping that fills the text sends a text and values with the meaning of the original exactly if no mark stands outside literals and, once there are parameters, every placeholder is closed, the quotes are in order and a mapping is asked for a name |
| `Statements.NameCharIs` | adodbapi/apibase.py:669-678 | the characters of a name are the ASCII letters, the digits and the underscore, written out one by one, and the letters beyond ASCII that are given |
| `Statements.QuotesInOrder` | adodbapi/apibase.py:649-651 | the quotes of a printed statement are in order, whatever its parameters look like |
| `Statements.NamedTranslates` | adodbapi/apibase.py:644-683 | a statement printed from code, literals and `:name`s is rewritten to the same statement with `?`s, and names exactly its parameters, in order and repeated |
| `Statements.FormatTranslates` | adodbapi/apibase.py:686-723 | so is one with `%s` or `%(name)s`, which never raises |
| `Statements.SentAsItIs` | adodbapi/adodbapi.py:827-937 | without parameters, under qmark, and under dynamic with a sequence, the text is sent as it is with the values in order |
| `Statements.NamedStatementSends` | adodbapi/adodbapi.py:827-937 | a printed named statement executed with a mapping sends the statement with `?`s and for each the value of its name; it raises exactly if one is missing |
| `Statements.PyformatStatementSends` | adodbapi/adodbapi.py:827-937 | the same for pyformat |
| `Statements.FormatStatementSends` | adodbapi/adodbapi.py:827-937 | a printed format statement executed with a sequence sends the statement with `?`s and the values in order |
| `Statements.NamesNeedAMapping` | adodbapi/adodbapi.py:904-928 | a statement with names executed with a sequence raises |
| `AdoCursor.TotalIsSum` | adodbapi/adodbapi.py:1019-1028 | the row count of a batch is the sum of its counts, or unknown exactly if one of them is |
| `AdoCursor.CursorObject.SetParamStyle` | adodbapi/adodbapi.py:540-550 | the program may assign paramstyle at any time, and nothing else in the cursor changes |
| `AdoCursor.CursorObject.PrepareOperation` | adodbapi/adodbapi.py:571-574 | prepare sets up the cursor for the operation |
| `AdoCursor.CursorObject.CallProcedure` | adodbapi/adodbapi.py:815-818 | callproc leaves the procedure name as command text and keeps the operation |
| `AdoCursor.CursorObject.Reformat` | adodbapi/adodbapi.py:827-836 | which rewriting runs |
| `AdoCursor.CursorObject.SettleText` | adodbapi/adodbapi.py:992-1005 | the first half of execute refines the specification |
| `AdoCursor.CursorObject.ExecuteOperation` | adodbapi/adodbapi.py:964-1010 | execute refines the specification: a rewriting, a binding, the making of the command or the execution may raise, and the row count changes only if none does |
| `AdoCursor.CursorObject.ExecuteMany` | adodbapi/adodbapi.py:1012-1028 | executemany executes the sets up to the first that raises anywhere, and adds up the counts; if one raises the row count is that of the set before |
| `NamedStyle.UnchangedIff` | adodbapi/apibase.py:644-683 | the named rewriting returns the text it was given exactly if the quotes are in order, no literal is empty and no colon stands outside literals; then it names nothing |
| `FormatStyle.UnchangedIff` | adodbapi/apibase.py:686-723 | the format rewriting returns the text it was given exactly if the quotes are in order and no parameter stands outside literals; then it names nothing |
| `CursorCache.ReuseIsFreshIff` | adodbapi/adodbapi.py:992-1010 | for every two ways of rewriting of one style: a text formed in one and reused for the other does what a fresh cursor does exactly if the text is plain, or the command is refused |
| `CursorCache.ForeignIsFreshIff` | adodbapi/adodbapi.py:992-1010 | a text left over from elsewhere is right exactly if rewriting the operation gives that text and no names |
| `CursorCache.ExecuteFollows` | adodbapi/adodbapi.py:992-1005 | where the text of the cursor comes from after an execution, whatever raised |
| `CursorCache.ExecuteIsFreshIff` | adodbapi/adodbapi.py:964-1010 | an execution on a cursor of any history does what it would do on a fresh one exactly if it is harmless |
| `CursorCache.ManyIsFreshIff` | adodbapi/adodbapi.py:1022-1023 | the same for a sequence of sets, up to the first that raises |
| `CursorCache.BatchHarmlessIff` | adodbapi/adodbapi.py:571-574 | after prepare, the text is formed anew until the first set with parameters and reused from there on |
| `CursorCache.BatchIsFreshIff` | adodbapi/adodbapi.py:1012-1028 | executemany does for each set what a fresh cursor would do, exactly if the text is plain or the sets it gets to ask for one rewriting from the first with parameters on |
| `CursorCache.ServeIsFreshIff` | adodbapi/adodbapi.py:571-1028 | the same for any one call: execute, prepare, executemany, callproc or an assignment of paramstyle |
| `CursorCache.CacheIsInvisibleIff` | adodbapi/adodbapi.py:540-1028 | over every run of these calls, changes of paramstyle included and whatever raises on the way, the cursor does call by call what fresh cursors of the style of the moment would do exactly if every call is harmless |
| `CursorCache.ModesDiffer` | adodbapi/adodbapi.py:827-836 | for any two ways of rewriting, of one style or of two, there is a text whose reuse across them does something else, whatever the parameters |
| `CursorCache.FailedRewriteLeavesStaleText` | adodbapi/adodbapi.py:997-1005 | after a rewriting that raised, passing the operation again sends the text of the one before, which is right exactly if the call has no parameters and the texts agree |
| `CursorCache.ProcedureNameIsSent` | adodbapi/adodbapi.py:815-816 | after callproc, passing the operation again sends the name of the procedure |
| `CursorCache.TwoWaysHarm` | adodbapi/adodbapi.py:1012-1028 | a batch of a mapping and then no parameters goes wrong for every text that is not plain |
| `CursorCache.ABatchThatHarms` | adodbapi/adodbapi.py:1012-1028 | such a batch exists |
| `CursorCache.EmptyTupleHarms` | adodbapi/adodbapi.py:865 | an empty tuple counts as parameters and an empty list does not: for a text that is not plain, a batch of one of them and then a mapping does what fresh cursors do exactly if it is the list |
| `StyleSwitch.ChunksAgreeIff` | adodbapi/apibase.py:660-721 | the two rewriters agree on a code chunk exactly if neither has anything to do |
| `StyleSwitch.TextsAgreeIff` | adodbapi/apibase.py:644-723 | without an empty literal they agree on a text exactly if outside literals there is nothing for either to do |
| `StyleSwitch.ReuseServesIff` | adodbapi/adodbapi.py:992-1010 | for every two ways of rewriting, whatever the styles: a text formed in one and reused for the other does what a fresh cursor does exactly if the one text may stand for the other |
| `StyleSwitch.AlikeIff` | adodbapi/adodbapi.py:827-836 | between named and format, without an empty literal, it may exactly if outside literals there is nothing for either to do, or neither call gets as far as executing anything |
| `StyleSwitch.NamedForFormatIff` | adodbapi/adodbapi.py:827-836 | when a text formed in named style may be reused after the style was changed to format, open placeholders included |
| `StyleSwitch.FormatForNamedIff` | adodbapi/adodbapi.py:827-836 | and the other way round |
| `Transactions.StepKeepsAgreement` | adodbapi/adodbapi.py:308-412 | every call keeps transaction_level equal to the provider's nesting level, but for one kind of failing close |
| `Transactions.StrandedForever` | adodbapi/adodbapi.py:344-412 | after that failure no call repairs the level |
| `Transactions.RunAgreesIff` | adodbapi/adodbapi.py:308-412 | over every run the level is right exactly if no close failed after rolling back |
| `Transactions.LevelIsTheProvidersIff` | adodbapi/adodbapi.py:286-412 | from connect on, whatever fails, the level never exceeds 1 and is the provider's exactly if no close failed that way |
| `Transactions.ALevelThatIsStale` | adodbapi/adodbapi.py:308-340 | a run after which the level is 1 and the provider is at 0 |
| `Transactions.OpenUntilLost` | adodbapi/adodbapi.py:344-402 | a transaction stays open until a BeginTrans fails, and none is open afterwards |
| `Transactions.OneTransactionIff` | adodbapi/adodbapi.py:286-402 | with autocommit off exactly one transaction is open between calls, exactly as long as no BeginTrans failed |
| `Transactions.RunCommits` | adodbapi/adodbapi.py:344-412 | what the provider holds durably after any run of calls on an open transaction, assignments of autocommit included, whatever fails: the writes of the transactions that were committed, and those made while none was open |
| `Transactions.CloseKeepsTheCommitted` | adodbapi/adodbapi.py:308-340 | after any such run, whatever failed, close discards what is pending, and the database keeps exactly the writes that were committed or made outside a transaction, in order |
| `Transactions.WithoutTransaction` | adodbapi/adodbapi.py:344-412 | with no transaction open every write is durable at once, whatever is called and fails, and none is ever opened |
| `Transactions.AutocommitIsLastSet` | adodbapi/adodbapi.py:404-412 | autocommit is what it was last set to, whatever fails, if the provider has transactions |
| `Transactions.AutocommitOn` | adodbapi/adodbapi.py:404-412 | turning autocommit on discards what is pending, leaves no transaction open ever after, and makes every later write durable whatever close does |
| `Transactions.AutocommitOff` | adodbapi/adodbapi.py:404-412 | turning it off inside a transaction makes later writes durable only by a commit; turning it off when none is open opens none, and they stay durable at once |
| `Transactions.ConnectedWithAutocommit` | adodbapi/adodbapi.py:286-295 | connected with autocommit, or without transaction support, every write is durable |
| `Transactions.CommitRaisesIff` | adodbapi/adodbapi.py:344-371 | a commit that does not raise has made the pending writes durable and opened the next transaction; one that raises left everything as it was or no transaction open |
| `Transactions.RollbackRaisesIff` | adodbapi/adodbapi.py:373-402 | the same for a rollback, which makes nothing durable |
| `Transactions.CloseRaisesIff` | adodbapi/adodbapi.py:308-340 | close raises exactly if the connection stays open |
| `Transactions.AdoConnection.CommitTrans` | adodbapi/adodbapi.py:360 | the provider call; it fails outside a transaction |
| `Transactions.AdoConnection.RollbackTrans` | adodbapi/adodbapi.py:389 | the provider call; it discards what is pending |
| `Transactions.Connection.constructor` | adodbapi/adodbapi.py:286-295 | connect opens a transaction only with transaction support and autocommit off |
| `Transactions.Connection.Commit` | adodbapi/adodbapi.py:344-371 | commit refines the specification, and raises exactly when it says |
| `Transactions.Connection.Rollback` | adodbapi/adodbapi.py:373-402 | so does the rollback |
| `Transactions.Connection.SetAutocommit` | adodbapi/adodbapi.py:404-412 | setting autocommit stores the value given, rolls back and swallows what that raises; what follows from it is `AutocommitOn` and `AutocommitOff` |
| `Transactions.Connection.Close` | adodbapi/adodbapi.py:308-340 | close swallows a failing rollback and raises for a failing close |
| `AssocTheorems.LookupAgrees` | pythonwin/win32assoc.cpp:131-192 | a lookup through the cache answers and acts as a lookup in the map |
| `AssocTheorems.StepAgrees` | pythonwin/win32assoc.cpp:68-192 | so does every call, and it leaves the cache in agreement with the map |
| `AssocTheorems.CacheIsInvisible` | pythonwin/win32assoc.cpp:99-192 | over every run the cache changes no answer, cached "no object" included: the question at line 141 has the answer no |
| `AssocTheorems.CleanupWindowIff` | pythonwin/win32assoc.cpp:68-97 | while cleanup() runs a lookup is answered wrongly exactly for the pointer being removed, if it was the last one looked up |
| `AssocTheorems.StepKeepsWeak` | pythonwin/win32assoc.cpp:68-192 | every call keeps one count per map entry |
| `AssocTheorems.WeakReferencesAreConserved` | pythonwin/win32assoc.cpp:68-192 | after every run each weak reference has one count per entry, and a cached one is a current map value |
| `AssocTheorems.CreatedMirrorIff` | pythonwin/win32assoc.cpp:354-365 | when a new wrapper fits into the correspondence of map and assoc fields |
| `AssocTheorems.StepKeepsMirrorIff` | pythonwin/win32assoc.cpp:310-366 | map and assoc fields stay inverse to each other exactly if the call is none of the listed ones |
| `AssocTheorems.StaleMake` | pythonwin/win32assoc.cpp:144-186 | asking for the pointer of a wrapper half way through its destructor breaks the correspondence |
| `AssocTheorems.RunKeepsMirror` | pythonwin/win32assoc.cpp:310-366 | the correspondence over every run without such a call |
| `AssocTheorems.OneWrapperPerPointer` | pythonwin/win32assoc.cpp:339-366 | a live wrapper is the only one of its pointer, and make returns it with one more reference and changes nothing else |
| `AssocTheorems.UsualNeverBreaks` | pythonwin/win32assoc.cpp:310-366 | runs that ask for real pointers with the lookup, run destructors to their end and forget no pointer of a living wrapper hold no call that breaks the correspondence |
| `AssocTheorems.UsualRunsKeepOneWrapper` | pythonwin/win32assoc.cpp:339-366 | so after every such run a live wrapper is the only one of its pointer and is handed out again |
| `AssocTheorems.UsualEntriesAreAlive` | pythonwin/win32assoc.cpp:310-366 | and every map entry is of a living wrapper with that pointer |
| `AssocTheorems.NewWrapperLosesItsEntry` | pythonwin/win32assoc.cpp:310-323 | a wrapper made for the same pointer in the middle of a destructor is taken out of the map by its end |
| `AssocTheorems.ALookupThatIsWrong` | pythonwin/win32assoc.cpp:68-97 | a run into the window of cleanup() in which a lookup is answered wrongly |
| `AssocTheorems.ADestructorHalfWay` | pythonwin/win32assoc.cpp:310-323 | a run into a destructor that is half way through |
| `AssocTheorems.LookupNetsOne` | pythonwin/win32assoc.cpp:157-192 | a lookup nets one reference on the object it returns and none elsewhere |
| `AssocTheorems.MismatchLeaksOne` | pythonwin/win32assoc.cpp:345-353 | make of another type raises exactly then and keeps the reference it took |
| `AssocMake.MakeIsByType` | pythonwin/win32assoc.cpp:339-366 | after any usual run, make for a pointer without a wrapper makes a new one; as long as that lives, whatever usual calls follow, make for the pointer hands it out to those who ask for its type or a base of it, and raises for everybody else |
| `AssocMake.StepKeepsWrapper` | pythonwin/win32assoc.cpp:68-192 | no call changes the type of a living wrapper |
| `AssocMake.ReferencesAreTheCallers` | pythonwin/win32assoc.cpp:68-366 | over every run a wrapper has as many references as its callers hold, and lives exactly as long as they hold one |
| `AssocMake.ForgetCleansUp` | pythonwin/win32assoc.cpp:68-97 | removing a pointer from the map cleans up its wrapper exactly if that is alive, and takes no other entry |
| `AssocMake.UsualRunCleansNobody` | pythonwin/win32assoc.cpp:68-97 | over a run of usual calls cleanup() is called for nobody |
| `AssocManager.CAssocManager.LetGo` | pythonwin/win32assoc.cpp:74-94 | the strong-reference and the borrowed-reference protocol have the same net effect |
| `AssocManager.CAssocManager.RemoveAssoc` | pythonwin/win32assoc.cpp:68-97 | removal drops the map's reference and always invalidates the cache |
| `AssocManager.CAssocManager.Assoc` | pythonwin/win32assoc.cpp:99-126 | association replaces the entry and owns one reference to it |
| `AssocManager.CAssocManager.Strengthen` | pythonwin/win32assoc.cpp:157-191 | one new reference under either protocol |
| `AssocManager.CAssocManager.GetAssocObject` | pythonwin/win32assoc.cpp:131-192 | the cached lookup refines the specification |
| `AssocManager.CAssocManager.Create` | pythonwin/win32assoc.cpp:354-364 | a new wrapper gets the type it was asked for, and is entered in the map before it gets its pointer |
| `AssocManager.CAssocManager.Make` | pythonwin/win32assoc.cpp:339-366 | make refines the specification, whose answers by type are `AssocMake.MakeIsByType` |
| `AssocManager.CAssocManager.Destroy` | pythonwin/win32assoc.cpp:310-323 | the destructor removes the entry of its pointer |
| `AssocManager.CAssocManager.Release` | pythonwin/win32uimodule.cpp:358-364 | the last reference clears the weak references, then runs the destructor |
| `ClCommands.ParseInverts` | setup.py:1135-1142 | a command of the expected shape is its head, one input, its object, and its tail |
| `ClCommands.ParseAccepts` | setup.py:1135-1142 | and every command printed from such parts is accepted |
| `Grouping.GroupsAreClasses` | setup.py:1126-1148 | the groups are the classes of commands that agree in everything but input and object name, in order |
| `Grouping.GroupsAreAsMet` | setup.py:1134-1148 | the groups stand in the order in which their first commands were met |
| `Grouping.GroupingConserves` | setup.py:1134-1148 | grouping neither loses nor repeats a command |
| `Grouping.BatchedJobs` | setup.py:1126-1175 | how often each job occurs after merging |
| `Grouping.BatchingKeepsJobsIff` | setup.py:1126-1175 | merging keeps every job as often exactly if it changes the job of no command |
| `Batching.CompileOne` | setup.py:1101-1115 | what one command compiles |
| `Batching.PutInGroup` | setup.py:1134-1148 | one turn of the grouping loop |
| `Batching.CollectGroups` | setup.py:1134-1148 | the grouping loop, which raises for the first command of another shape |
| `Batching.EmitGroups` | setup.py:1150-1175 | the emitting loop, which raises for the first group with a collision |
| `Batching.BatchCompiles` | setup.py:1101-1175 | the generator as a whole refines the specification |
| `BatchTheorems.CompileMerged` | setup.py:1150-1175 | a merged command compiles the sources of its group, in order, each with its flags |
| `BatchTheorems.DirectoryOfFile` | setup.py:1146-1173 | the directory with its trailing separator is stable under taking the directory of a file in it |
| `BatchTheorems.BuildIsPreservedIff` | setup.py:1101-1175 | the merged commands compile each source as often, with the same flags, into the same object, exactly if every command that shares a group has its object where cl itself would put it |
| `BatchTheorems.MisnamedPairChanges` | setup.py:1150-1175 | two commands of one group, one of them not named after its source, do not build what they built |
| `BatchTheorems.ABuildThatChanges` | setup.py:1150-1175 | such a batch exists and is accepted |
| `BatchTheorems.RefusedIff` | setup.py:1134-1165 | a batch is refused exactly for a bad shape or two objects of one name in a group |
| `BatchTheorems.DistinctObjectsAreAccepted` | setup.py:1117-1165 | distinct objects in normalised directories are never refused |
| `BatchTheorems.GroupsInOrder` | setup.py:1150-1175 | one command per group, in the order of the groups, compiling its members in theirs |
| `BatchTheorems.DecimalIsNumeral` | setup.py:1169 | the number in /MP is the decimal numeral that reads as the number of jobs |
| `BatchTheorems.MergedAsksForJobs` | setup.py:1167-1175 | a merged command asks cl once for jobs, and for as many as there are |
| `ExtensionBuild.PathParts` | setup.py:1146-1156 | a path is cut at its last separator, slash or backslash |
| `ExtensionBuild.ExtensionMerges` | setup.py:1101-1175 | the commands printed for the sources of one extension become the one command written out: common head, /MP, sources in order, folder, common tail; a single one stays, and two objects of one name are refused |
| `ExtensionBuild.ExtensionIsBuilt` | setup.py:1053-1081 | compile of such an extension starts that one command and ends as it does; nothing starts if the sources are not all counted or two objects have one name |
| `MsvcCompiler.CollectionSplits` | setup.py:1083-1091 | collecting puts off every cl command and starts every other at once, in order |
| `MsvcCompiler.DeferralIsAllOrNothing` | setup.py:1053-1081 | the other commands all come before any cl command, and no cl command starts if collecting, counting or merging fails |
| `MsvcCompiler.CompileRaisesIff` | setup.py:1061-1081 | nothing is started after a command that failed; a batched compile raises exactly if collecting, counting or merging failed or the last command it started did, an unbatched one exactly if distutils raised or a command failed |
| `MsvcCompiler.MergedRun` | setup.py:1076-1081 | the merged commands start behind the others, in order, and the first that fails is the last that starts |
| `MsvcCompiler.CompletesIff` | setup.py:1053-1081 | a batched compile completes exactly if distutils goes on to the end, as many cl commands were collected as there are sources, they can be merged, and no merged command fails |
| `MsvcCompiler.BatchingKeepsTheBuildIff` | setup.py:1014-1081 | a batched and an unbatched compile that complete start the same other commands, and compile the same jobs exactly under the naming condition |
| `MsvcCompiler.MyMsvcCompiler.Call` | setup.py:1083-1095 | call puts off or starts a command |
| `MsvcCompiler.MyMsvcCompiler.Collecting` | setup.py:1061-1074 | however the collecting ends, nothing is pending |
| `MsvcCompiler.MyMsvcCompiler.RunMerged` | setup.py:1076-1080 | the merged commands run up to the first that fails, which raises |
| `MsvcCompiler.MyMsvcCompiler.Compile` | setup.py:1014-1081 | compile refines the specification, and a nested compile raises and changes nothing |
| `Hooks.TableChange` | pythonwin/win32cmd.cpp:204-214 | what one hook call changes in its table |
| `Hooks.StepBalances` | pythonwin/win32cmd.cpp:186-246 | no call and no single drop changes the balance of references taken and entries held |
| `Hooks.ReferencesAreConserved` | pythonwin/win32cmd.cpp:186-246 | over every run, frees entered again inside frees included: the hooked object has one reference per entry, each method one per entry beside those passed to callers |
| `Hooks.QuiescentReferences` | pythonwin/win32cmd.cpp:162-246 | with no free under way the references on the hooked object and on each method are those of the entries of the lists |
| `Hooks.LastReferenceIsTheLast` | pythonwin/win32cmd.cpp:221-246 | when the last reference on the hooked object goes nothing is left to visit anywhere |
| `Hooks.HookIsFound` | pythonwin/win32cmd.cpp:203-217 | a handler is found under the message numbers with its low 16 bits and no other, and a replaced one passes its reference to the caller |
| `Hooks.BadHookMakesTheList` | pythonwin/win32cmd.cpp:186-197 | a hook call with bad arguments changes no handler and no reference |
| `Hooks.FreeAgainDoesNothing` | pythonwin/win32cmd.cpp:222-235 | a free entered again before the list is hooked again does nothing |
| `Hooks.PyCCmdTarget.AddHookList` | pythonwin/win32cmd.cpp:186-219 | the hook call refines the specification |
| `Hooks.PyCCmdTarget.FreeWithOtherCode` | pythonwin/win32cmd.cpp:221-246 | a free with any code entered from its drops, frees of the same list included, to any depth, is a run of the model that begins with the free of the list and ends when nothing of it is left to visit, and keeps the references conserved |
| `Hooks.PyCCmdTarget.VisitWithOtherCode` | pythonwin/win32cmd.cpp:240-244 | one turn of the loop, with other code entered from both drops |
| `Hooks.PyCCmdTarget.VisitAll` | pythonwin/win32cmd.cpp:240-244 | the loop, with other code entered from all its drops |
| `Hooks.PyCCmdTarget.DestroyWithOtherCode` | pythonwin/win32cmd.cpp:162-168 | the destructor with any code entered from its drops frees the lists one after the other, keeps the references conserved, and leaves exactly the references of entries hooked again meanwhile |
| `Hooks.AListThatSurvives` | pythonwin/win32cmd.cpp:162-168 | such an entry exists: a list hooked again after the destructor has passed it keeps its reference |
| `Hooks.PyCCmdTarget.VisitEntry` | pythonwin/win32cmd.cpp:240-244 | one turn of the free loop is two drops |
| `Hooks.PyCCmdTarget.FreeHookList` | pythonwin/win32cmd.cpp:230-246 | a free whose drops run no other code is a run of drops that gives back exactly what the list held |
| `Hooks.PyCCmdTarget.Destroy` | pythonwin/win32cmd.cpp:162-168 | when no drop runs other code, the destructor empties all lists and gives back every reference, on the hooked object and on each method |
| `Conversations.TerminatedKeeps` | pythonwin/stddde.cpp:416-438 | termination takes the conversation off the list and clears its handle |
| `Conversations.StepKeeps` | pythonwin/stddde.cpp:416-477 | every call keeps the list and the handles in step |
| `Conversations.ListIsAHandleMap` | pythonwin/stddde.cpp:1197-1252 | over every run, whatever disconnects are delivered on the way, each listed conversation is there once with a handle of its own, and the listed handles are those held open |
| `Conversations.FindAgreesWithTheMap` | pythonwin/stddde.cpp:1714-1724 | the walk finds exactly the listed conversation of a handle |
| `Conversations.HeadMovesOn` | pythonwin/stddde.cpp:796-801 | terminating the head makes the next entry the head |
| `Conversations.ShutdownEmptiesIff` | pythonwin/stddde.cpp:796-801 | the walk of Shutdown ends with an empty list exactly if no visit delivers the disconnect of the next entry |
| `Conversations.DisconnectShrinks` | pythonwin/stddde.cpp:416-431 | a termination takes away exactly the conversations whose disconnects are delivered and its own, and keeps the order of the others |
| `Conversations.AWalkThatIsOvertaken` | pythonwin/stddde.cpp:796-801 | a run after which the walk loses its position |
| `Conversations.NoDeliveryNoOvertaking` | pythonwin/stddde.cpp:796-801 | it does if no disconnect of an open conversation is delivered |
| `Conversations.ConnectReplaces` | pythonwin/stddde.cpp:440-477 | a ConnectTo first ends the conversation it had, whether or not the new connection comes about, and exactly then goes to the end of the list with a new handle |
| `Conversations.FailingConnectTerminates` | pythonwin/stddde.cpp:440-467 | a connection that fails does what a termination does |
| `Conversations.HangUpIs` | pythonwin/stddde.cpp:1130-1148 | a hang-up takes exactly the conversation with the handle off the list, and leaves every object its handle |
| `Conversations.ListedInTheirOrder` | pythonwin/stddde.cpp:1197-1252 | over every run the listed conversations stand in the order of their last connections |
| `Conversations.ShutdownIsFinal` | pythonwin/stddde.cpp:789-816 | after a Shutdown that comes to its end nothing is listed or open, and another does nothing |
| `Conversations.CDDEServer.FindConversation` | pythonwin/stddde.cpp:1714-1724 | the lookup loop |
| `Conversations.CDDEServer.RemoveConversation` | pythonwin/stddde.cpp:1230-1252 | the removal loop takes away the first entry with the handle |
| `Conversations.CDDEServer.HangUp` | pythonwin/stddde.cpp:1130-1148 | the disconnect callback leaves the object with its stale handle |
| `Conversations.CDDEServer.DdeDisconnect` | pythonwin/stddde.cpp:423 | whatever disconnects are delivered, one after the other |
| `Conversations.CDDEServer.Terminate` | pythonwin/stddde.cpp:416-438 | termination, and whether it was active |
| `Conversations.CDDEServer.ConnectTo` | pythonwin/stddde.cpp:440-477 | a reconnect terminates first and goes to the end of the list |
| `Conversations.CDDEServer.AddConversation` | pythonwin/stddde.cpp:1197-1214 | a confirmed connect adds a new object |
| `Conversations.CDDEServer.Shutdown` | pythonwin/stddde.cpp:789-816 | the loop with its saved position |
| `Dib.StrideIsLeast` | pythonwin/win32bitmap.cpp:308-316 | the stride is the least multiple of 4 that holds a row |
| `Dib.StrideIsWidthBytes` | pythonwin/dibapi.h:30 | and the one the rest of the system computes |
| `Dib.RowsApart` | pythonwin/win32bitmap.cpp:332-336 | rows never overlap |
| `Dib.RowInside` | pythonwin/win32bitmap.cpp:317-336 | rows stay behind the header and inside the block |
| `Dib.NegativeSizes` | pythonwin/win32bitmap.cpp:308-320 | what sizes of which one or both are negative make of the block, once they agree with the bytes read |
| `Dib.CopyRow` | pythonwin/win32bitmap.cpp:333-336 | the inner loop reverses the channels of one row and writes nothing else |
| `Dib.CopyRows` | pythonwin/win32bitmap.cpp:330-336 | the outer loop mirrors the rows |
| `Dib.PutHeader` | pythonwin/win32bitmap.cpp:346-357 | the header fields, byte by byte |
| `Dib.LoadPpm` | pythonwin/win32bitmap.cpp:281-365 | the loader refuses exactly the inputs of another length, and otherwise the block holds header and image; with a negative size, the header and no row |
| `Dib.BitsBehindHeader` | pythonwin/dibapi.cpp:349-516 | FindDIBBits points at the first byte behind the header |
| `Dib.BitsBehindTable` | pythonwin/dibapi.cpp:349-516 | for 1, 4 and 8 bits the pixels begin behind a table with an entry per pixel value, of four bytes, or three in the older header; for 24 bits behind the header |
| `Dib.GivenTableIff` | pythonwin/dibapi.cpp:446-502 | a header that gives the size of its table is followed exactly if that size in bytes fits a WORD |
| `Dib.CoreHeaderIsRead` | pythonwin/dibapi.cpp:349-516 | a block with the older header is read with the sizes it was written with |
| `Dib.HeaderBytes` | pythonwin/win32bitmap.cpp:346-357 | the header byte by byte: its size, width, height, one plane, 24 bits, no compression, no table |
| `Dib.PixelIs` | pythonwin/win32bitmap.cpp:330-336 | a pixel counted from the upper left corner stands with its channels reversed in the row that is as far from the end of the block |
| `Dib.DecodeInvertsLoad` | pythonwin/win32bitmap.cpp:308-357 | reading the block back by its header gives the image byte for byte |
| `DumpToc.SplitInvertsJoin` | AutoDuck/Dump2HHC.py:107-108 | splitting a line at tabs inverts joining |
| `DumpToc.ReadsTopic` | AutoDuck/Dump2HHC.py:109-225 | one printed topic is read back with its children |
| `DumpToc.ReadsItems` | AutoDuck/Dump2HHC.py:169-224 | the items of a topic give its methods and properties, in order |
| `DumpToc.ParseInvertsPrint` | AutoDuck/Dump2HHC.py:94-225 | parsing any printed dump stores exactly its topics but the last |
| `DumpToc.LastTopicIsLost` | AutoDuck/Dump2HHC.py:178-225 | the last topic of a file leaves no trace |
| `DumpToc.StoredIsLast` | AutoDuck/Dump2HHC.py:143-225 | the last topic of a kind and name wins, and other kinds leave nothing |
| `DumpToc.EscapeIsPerCharacter` | AutoDuck/Dump2HHC.py:228-235 | the three replacements of the URL escape do not disturb each other |
| `DumpShape.RaisesAtTheFirstFault` | AutoDuck/Dump2HHC.py:94-225 | the nested loops raise exactly if some row is not as a one-pass reading of the format expects, and with what is wrong with the first such row |
| `DumpShape.GoodTopicsAreKept` | AutoDuck/Dump2HHC.py:143-225 | whatever stands behind a well-formed dump, all of its topics are stored |
| `DumpShape.PrintedRows` | AutoDuck/Dump2HHC.py:96-108 | the rows as they stand in the file, tabs and newlines written out |
| `DumpShape.LastLineIsCut` | AutoDuck/Dump2HHC.py:106 | a last line without its newline loses its last character instead |
| `DumpToc.Reader.SkipItems` | AutoDuck/Dump2HHC.py:134-141 | the loop over a topic nobody cares for |
| `DumpToc.Reader.ReadItems` | AutoDuck/Dump2HHC.py:169-224 | the loop over items, with its errors |
| `DumpToc.ParseTopics` | AutoDuck/Dump2HHC.py:94-225 | the nested loops refine the parser |

## Left out

- Win32, MFC, COM and DDEML calls, the GIL, and the clock: they are parameters that say whether a call
  succeeds, or steps of another thread.
- ThreadPool: the worker's `while` loop is the cycle of its program counter; packets with keys other than
  requests and shutdowns, and errors of the port after it is closed, are not modelled.
- PoolTheorems.ShutdownTerminates: speaks of schedules before the port is closed, since a worker that waits on
  a closed port gets an error the model does not have.
- NamedStyle: which characters beyond ASCII `isalnum` accepts is a parameter.
- AdoCursor: parameter objects are reduced to their order and value, and a command or a parameter that ADO
  refuses to one answer; of `callproc` only what it leaves behind in the cursor; result sets are not modelled.
- FormatMeaning.FormatCallKeepsMeaningIff: speaks of calls whose parameters fill the text; of others, such as
  a text with both kinds of placeholders, it says nothing.
- StyleSwitch.AlikeIff: for texts without an empty literal; for the others `Alike` compares what the two
  rewriters return.
- Transactions: retaining providers; `CommitTrans` and `RollbackTrans` are taken to return the new nesting
  level, which is 0 in every run of this model.
- AssocManager: `cleanup()` of an object does not call back into the manager, except in
  `AssocTheorems.CleanupWindowIff`; holders of weak references other than the map, and `AttachObject`.
- ClCommands.Compile: what cl.exe does with /Fo and /MP is taken from the docstring at `setup.py:1104-1110`;
  the last /Fo counts, and several inputs with an object that is not a directory are refused.
- Batching: drive letters and UNC prefixes in paths; warning and error texts; which sources distutils finds
  outdated, and the sorting of message files to the front.
- MsvcCompiler.MyMsvcCompiler.SuperCompile: stands for the compiler class of distutils, which is not part of
  this model; it is a list of the commands that class asks for.
- Hooks.PyCCmdTarget.FreeHookList: for drops that run no other code, where the exact effect can be stated;
  `FreeWithOtherCode` is the same loop with any code entered from its drops. `Destroy` and
  `DestroyWithOtherCode` likewise.
- Conversations: reclaiming conversation objects, their reference counts, and topics.
- Dib.LoadPpm: sizes whose products do not fit in an int, and those with -1 column that make the block smaller
  than a header, are not modelled.
- DumpToc: writing the contents file, and the categories' own overview items.
- Date conversion, connection strings, `isapi/install.py`, `py2d.py`, `makedfromi.py`, `BuildHHP.py`, and the
  plain wrappers of controls, dialogs and property sheets: they would only add easy members.
