# ffind core in Dafny

`ffind` is a Windows file finder. It walks a directory tree with a pool of
worker threads and prints every file whose name (or whole path) contains a
needle, ignoring case. Optionally it keeps only files whose extension is on
a comma-separated allow-list. This project models the sequential logic
inside `ffind.c` and proves what it does:

- **`WideStr.dfy`**: C wide strings as `seq<char>` without the
  terminator (`WStr`), with reads past the end yielding the terminator. It
  also holds the C-locale case folding and `_wcsnicmp`.
- **`Matcher.dfy`**: `wcontains_i` and `ext_allowed`. Each is a method with
  the source's loops, proved equal to a specification predicate (`Occurs`,
  `ExtensionAllowed`). A second, independent reading of the allow-list as
  trimmed comma-separated fields (`TrimmedFields`) is proved to give the
  same tokens.
- **`Paths.dfy`**: `basename_ptr`, `is_dot_or_dotdot`, and the two builders
  `join_path` and `make_glob`. Both builders write into a caller's
  `array<char>` and fail exactly when the result and its terminator do not
  fit.
- **`WorkQueue.dfy`**: the work queue as a class with fields `pending`
  (FIFO), `active` and `stop`. Each method is tied to a pure step function
  (`PushStep`, `PopStep`, `DoneStep`). Lemmas over runs of operations state
  the termination rule: FIFO order, `stop` set only at quiescence, `stop`
  never cleared, and `active` never negative.
- **`Worker.dfy`**: the shared `Ctx` (settings, counters, output lines) and
  one iteration of `worker_thread`:
  1. pop;
  2. count the directory;
  3. build the pattern;
  4. walk the entries;
  5. call `wq_done_one` once on each way out.

The directory listing and each allocation outcome are inputs, so the step
is deterministic. Its effect is specified by `DirTally`. The lemmas about
`DirTally` say which entries are pushed, which are counted and which are
reported. The queue calls one iteration makes (`IterationOps`) form a segment of
a worker-disciplined run of the queue, which ties the run lemmas of
`WorkQueue.dfy` to the worker step.

## Model

| member | source | states |
|---|---|---|
| WideStr.Fold | ffind.c:27 | C-locale folding: upper-case ASCII letters become lower-case; every other character, the terminator included, is unchanged; no result is upper-case |
| WideStr.NicmpEqualMeaning | ffind.c:27 | `_wcsnicmp(a, b, n) == 0` exactly when the first `n` characters of both strings (all of them, if shorter) agree after folding; a string that ends early never equals a longer one |
| WideStr.NicmpEqualPrefix | ffind.c:27 | comparing `|b|` characters succeeds exactly when `a` is at least as long as `b` and starts with `b` up to case |
| Matcher.ContainsIgnoringCase | ffind.c:23-30 | true for an empty needle (even in an empty haystack); otherwise true exactly when the needle matches, up to case, at some offset `i` with `i + |needle| <= |hay|` |
| Matcher.LastIndexOf | ffind.c:44 | `wcsrchr`: -1 when the character is absent, else the index of an occurrence with none after it |
| Matcher.ExtensionOf | ffind.c:44-46 | the extension is non-empty, holds no '.', and the name is the rest, a '.', then the extension |
| Matcher.TokenEnd | ffind.c:52 | the length of the run before the first ',' (or of the whole string) |
| Matcher.TokensShape | ffind.c:49-53 | every token the scan compares is non-empty, starts with neither a space nor a tab, and holds no ',' |
| Matcher.TokenCompare | ffind.c:55 | the test `wcslen(ext) == len && _wcsnicmp(ext, start, len) == 0` is case-insensitive equality of `ext` with the run |
| Matcher.SkipSeparators | ffind.c:50 | stops at the first character that is not ',', ' ' or '\t' (or at the end), having passed only such characters |
| Matcher.RunEnd | ffind.c:51-52 | stops at the next ',' or at the end, having passed no ',' |
| Matcher.ScanStep | ffind.c:49-56 | one pass of the scan: the remaining tokens contain the extension exactly when this pass's run matches or a later token does |
| Matcher.ExtAllowed | ffind.c:41-59 | the result equals `ExtensionAllowed`: an empty filter admits every name; otherwise the name needs a last '.' that is not its final character, and its extension must equal some token up to case, length included |
| Matcher.TokensAreTrimmedFields | ffind.c:48-57 | the tokens the scan visits are the comma-separated fields with their leading blanks removed and empty fields dropped; trailing blanks stay in a token |
| Matcher.SkippedOnlyHasNoTokens | ffind.c:49-53 | a string of only ',', ' ' and '\t' yields no token |
| Matcher.SkippedOnlyFilterRejectsAll | ffind.c:42-58 | a non-empty filter of only separators and blanks rejects every name |
| Matcher.ExtensionlessRejected | ffind.c:42-45 | the empty filter admits every name; under a non-empty filter a name without '.' or ending in '.' is rejected |
| Matcher.AllowedMeansSomeToken | ffind.c:53-55 | an admitted name has an extension, and some token has the extension's length and equals it up to case |
| Matcher.PrimerExample | ffind.c:23-30 | "rim" and "RIM" occur in "Primer.TXT"; "xyz" does not |
| Matcher.FilterAdmitsListedExtension | ffind.c:41-59 | the filter "c,h" admits "foo.H" |
| Matcher.FilterRejectsLongerExtension | ffind.c:55 | the filter "c,h" rejects "foo.hpp": the lengths differ |
| Matcher.FilterRejectsExtensionless | ffind.c:42-45 | "c,h" rejects "foo", while the empty filter admits it |
| Matcher.TrailingBlankRejects | ffind.c:52 | under "c ,h" the first token is "c " with its blank, so "foo.c" is rejected |
| Matcher.TrailingBlankAdmitsNext | ffind.c:49-55 | under "c ,h" the second token "h" admits "foo.h" |
| Paths.BaseStart | ffind.c:32-38 | the start of the last component: 0 or just after a separator, with no separator from there on |
| Paths.BaseStartUnique | ffind.c:32-38 | any split point just after a separator (or at 0) with no separator after it is the last component's start |
| Paths.BasenamePtr | ffind.c:32-38 | the loop's result is the offset just after the last '\\' or '/', or 0 when there is none |
| Paths.BaseNameWithoutSeparator | ffind.c:33 | a path without separators is its own last component |
| Paths.IsDotOrDotDot | ffind.c:69-71 | true exactly for "." and ".." |
| Paths.Under | ffind.c:77-82 | `dir`, then one '\\' (that separator character, not '/') when `dir` is non-empty and does not end in a separator, then the tail; an empty `dir` yields the tail alone |
| Paths.Append | ffind.c:80-82 | `wcscpy_s`/`wcscat_s` in bounds: the characters before `at` are kept; the source string and a terminator follow |
| Paths.WriteUnder | ffind.c:80-82 | the buffer afterwards holds the C string `dir` + separator if needed + tail |
| Paths.JoinPath | ffind.c:74-84 | succeeds exactly when `|dir| + slash + |name| + 1 <= cap`; on success the buffer holds the child path, on failure it is unchanged |
| Paths.MakeGlob | ffind.c:87-96 | succeeds exactly when `|dir| + slash + 2 <= cap`; on success the buffer holds `dir` + separator if needed + "*", on failure it is unchanged |
| Paths.ReadCString | ffind.c:61-66 | reads the buffer up to its first terminator |
| Paths.ReadBack | ffind.c:247 | what is read back from a buffer holding a string is that string |
| Paths.BaseNameOfJoined | ffind.c:254 | the last component of a child path is the entry's name, whatever `dir` ends in |
| Paths.JoinedSeparatorRule | ffind.c:77 | an empty `dir` yields the name; a `dir` ending in a separator gets none added; any other gets exactly one '\\' |
| WorkQueue.PushStep | ffind.c:136-152 | appends at the tail unless the node is not allocated (the item is dropped); `active` and `stop` unchanged, `stop` not consulted |
| WorkQueue.PopStep | ffind.c:155-181 | with `stop`: Stop, nothing changes; else with pending work: the head, removed, `active` + 1; else with `active == 0`: sets `stop` and returns Stop; else Wait with the state unchanged |
| WorkQueue.DoneStep | ffind.c:184-189 | `active` decreases by exactly one; nothing else changes |
| WorkQueue.WorkQ.constructor | ffind.c:113-119 | empty queue, `active == 0`, `stop` clear |
| WorkQueue.WorkQ.PushOwned | ffind.c:136-152 | the new state is `PushStep` of the old |
| WorkQueue.WorkQ.Pop | ffind.c:155-181 | the result and new state are `PopStep` of the old state |
| WorkQueue.WorkQ.DoneOne | ffind.c:184-189 | the new state is `DoneStep` of the old |
| WorkQueue.FifoOrder | ffind.c:147-165 | over any run, what was handed out followed by what is still pending is exactly what was pending plus what was pushed, in order |
| WorkQueue.StopIsPermanent | ffind.c:158-161 | once `stop` is set it stays set and every later pop returns Stop |
| WorkQueue.StopOnlyAtQuiescence | ffind.c:172-177 | a run that sets `stop` does so at a pop that found no pending work and `active == 0` |
| WorkQueue.NothingHeldAtStop | ffind.c:172-177 | the pop that sets `stop` finds nothing pending and no worker holding a directory, so the queue never stops while work is in progress |
| WorkQueue.WorkerRunMatchesPops | ffind.c:213-268 | a run that keeps the worker discipline (pushes and `wq_done_one` only while holding a popped directory) also keeps the weaker one that only constrains `wq_done_one` |
| WorkQueue.ActiveIsHeld | ffind.c:168-186 | over any run, `active` moves exactly as the number of directories the workers hold (one more per pop that hands one out, one fewer per `wq_done_one`) |
| WorkQueue.ActiveNeverNegative | ffind.c:168-186 | when each `wq_done_one` follows a pop that handed out a directory, `active` equals the number of directories held and is never negative at any point of the run; pushes are unconstrained, so the root's seed push from `wq_init`'s state is covered |
| WorkQueue.StopIsFinal | ffind.c:158-178 | after termination with nothing pending or active, no worker operation changes the state |
| WorkQueue.RunAppend | ffind.c:136-189 | running two sequences of queue operations in turn is running their concatenation |
| WorkQueue.PushedAppend | ffind.c:136-152 | the directories a concatenation of operations enqueues are those of the first part, then those of the second |
| WorkQueue.RunPushes | ffind.c:136-152 | a burst of pushes appends exactly what it enqueues, in order, and, made while holding a directory, keeps the worker discipline for what follows |
| WorkQueue.SeededStart | ffind.c:325-335 | after `wq_init` and pushing the root, the first pop hands out the root with `active == 1`, and a second pop waits |
| Worker.Ctx.constructor | ffind.c:337-345 | the settings as given, zero counters, no output |
| Worker.MatchFile | ffind.c:252-255 | the file test is the extension filter on the name, then the needle in the full path or in its last component |
| Worker.TakeSubdir | ffind.c:242-248 | a reparse point is skipped; otherwise the child path is pushed when its copy is allocated, subject to the node |
| Worker.TakeFile | ffind.c:249-261 | `files_scanned` + 1; on a hit `found` + 1 and the child path is written out |
| Worker.ProcessEntry | ffind.c:234-262 | the counters, output and pending queue advance by the entry's `EntryTally`: "." and ".." and over-long paths do nothing |
| Worker.ScanEntries | ffind.c:233-264 | the counters, output and pending queue advance by `ScanTally` of the entries in order |
| Worker.ProcessDir | ffind.c:217-268 | `dirs_scanned` + 1; the state advances by `DirTally`; `active` drops by exactly one on each of the three exits |
| Worker.WorkerIteration | ffind.c:213-268 | the pop's result is that of `PopStep`; a Stop or Wait changes nothing else; a handed-out directory is expanded, leaving `active` as it was; the queue ends as running the iteration's queue calls (`IterationOps`) leaves it |
| Worker.EntryOpsPushes | ffind.c:242-248 | an entry's queue calls are pushes only, and what they enqueue is the entry's tally's pushed path |
| Worker.ScanOpsPushes | ffind.c:233-264 | the enumeration loop's queue calls are pushes only, and they enqueue exactly the scan tally's pushed paths, in order |
| Worker.DirOpsPushes | ffind.c:217-268 | expanding a directory makes only pushes, and they enqueue exactly `DirTally`'s pushed paths whatever the criteria |
| Worker.IterationSegment | ffind.c:213-268 | one iteration's queue calls (a pop, then for a handed-out directory its pushes and one `wq_done_one`) are a worker-disciplined segment that leaves the number of held directories as it was, so iterations chain into a `WorkerRun`; the queue ends with the popped directory removed, its subdirectories appended and `active` unchanged |
| Worker.FailedDirectoryDoesNothing | ffind.c:219-231 | when the pattern does not fit or the enumeration fails, no entry is examined |
| Worker.ScanCounts | ffind.c:250-256 | `0 <= found <= files_scanned`, and one output line per match |
| Worker.ScanFiles | ffind.c:235-250 | `files_scanned` grows by the number of entries that are not "." or "..", whose path fits, and that are not directories |
| Worker.ScanPushedSound | ffind.c:235-248 | every pushed path is the child path of an examined entry that is a directory and not a reparse point, and whose path copy and queue node were both allocated |
| Worker.ScanFound | ffind.c:249-260 | `found` grows by the number of examined file entries whose file-test verdict is a hit |
| Worker.ScanPushedCount | ffind.c:242-248 | one path is pushed per examined plain subdirectory whose copy and node are allocated |
| Worker.ScanPushedComplete | ffind.c:242-248 | every examined plain subdirectory whose copy and node are allocated is pushed |
| Worker.ScanMatchesSound | ffind.c:249-260 | every output line is the child path of an examined file that passed the file test |
| Worker.ScanMatchesComplete | ffind.c:249-260 | every examined file that passes the file test is written out |
| Worker.DirReport | ffind.c:233-264 | for a directory whose pattern fits: `files` is the number of examined file entries; `found` is the number of examined file entries that pass the file test, and one line is written per such entry, each the child path of one and every one's path among them; one path is pushed per examined plain subdirectory whose copy and node are allocated, each the child path of one and every one's path among them |
| Worker.BasenameModeMatchesName | ffind.c:254 | without `-f` the needle is looked for in the entry's own name |
| Worker.EmptyCriteriaMatchEverything | ffind.c:252-255 | an empty needle and an empty filter pass every file |
| Worker.ExampleDotsSkipped | ffind.c:235 | "." and ".." add nothing |
| Worker.ExampleSubdirPushed | ffind.c:242-248 | a subdirectory of C:\r is pushed as C:\r\sub |
| Worker.ExampleSubdirDropped | ffind.c:247-248 | a failed copy or node allocation drops the subdirectory |
| Worker.ExampleRootFileReported | ffind.c:249-260 | a matching file is counted and reported with its child path |
| Worker.ExampleLinkNotFollowed | ffind.c:243-244 | a reparse-point directory is not followed |
| Worker.EmptyCriteriaVerdicts | ffind.c:252-255 | with an empty needle and an empty filter every entry's file-test verdict passes |
| Worker.ScanFileAndDir | ffind.c:233-264 | the scan of ".", "..", a file and a directory with every allocation succeeding and the file a hit counts and reports the file and pushes the directory unless it is a reparse point |
| Worker.ExpandFileAndDir | ffind.c:217-268 | expanding a directory holding ".", "..", a file and a directory, with an empty needle and no filter in either mode: one file scanned and found, its child path reported, and the directory's child path pushed unless it is a reparse point |
| Worker.ExampleChildPaths | ffind.c:74-84 | the child paths of the example tree: C:\r\a.txt, C:\r\sub and C:\r\sub\b.txt |
| Worker.ExampleRootExpanded | ffind.c:217-268 | expanding C:\r (".", "..", "a.txt", "sub") with an empty needle and no filter: C:\r\sub is pushed, one file is scanned and found, C:\r\a.txt is reported |
| Worker.ExampleSubExpanded | ffind.c:217-268 | expanding C:\r\sub (".", "..", "b.txt", and "link", a reparse point back to the root): nothing is pushed, one file is scanned and found, C:\r\sub\b.txt is reported |
| Worker.WalkSegment | ffind.c:213-268 | `n` iterations of one worker run alone are a worker-disciplined segment of the queue's run, holding as many directories as before, and the queue ends where `n` successive iterations leave it |
| Worker.ExampleRootStep | ffind.c:213-268 | from the queue seeded with C:\r, the first iteration hands out C:\r, tallies as `ExampleRootExpanded` says, and leaves C:\r\sub pending with no worker active |
| Worker.ExampleSubStep | ffind.c:213-268 | the next iteration hands out C:\r\sub, tallies as `ExampleSubExpanded` says, and leaves the queue empty with no worker active |
| Worker.ExampleStopStep | ffind.c:172-177 | the iteration after that pops from an empty queue with nobody active, sets `stop` and returns Stop |
| Worker.ExampleWalkStops | ffind.c:213-268 | the three iterations from the seeded queue follow the worker discipline and end stopped with nothing pending and nobody active |
| Worker.ExampleWalkCounts | ffind.c:217-268 | over that walk two directories are scanned, two files scanned and found, C:\r\sub is the one directory queued, and C:\r\a.txt then C:\r\sub\b.txt are reported |

## Left out

- Threads, the critical sections, the condition variable and the interlocked increments are left out. Each queue operation is one atomic step, and where `wq_pop` would sleep it returns `Wait` with the state unchanged. Interleavings are covered only as sequences of queue operations (`Run`).
- The outer `for (;;)` loop of `worker_thread` is modelled by one iteration, `WorkerIteration`. Its repetition is stated over runs of the queue (`WalkOps`, `WalkTally`, for a given number of iterations), not as a loop.
- `FindFirstFileW`/`FindNextFileW`/`FindClose` and the attribute bits are left out. The enumeration is an input: `EnumFailed`, or the entries in order. A listing may be empty, although the source's `do ... while` always sees at least one entry; an empty listing examines nothing.
- `malloc`, `free`, `wcsdup_heap` and `wq_destroy` are not modelled as memory. Each allocation is an input flag that says whether the copy or the node was allocated.
- Printing is modelled as appending to `output`. `print_winerr`, the final summary and the output lock are left out, because they are I/O.
- `qpc_seconds` and the timing are left out, because they use a clock and floating point.
- `wmain` argument parsing, `usage`, `_wtoi` and the `GetSystemInfo` default thread count are left out, because they are command-line glue. The constructors take the settings they produce.
- WideStr.Fold: the case folding is ASCII-only, the C locale's. Locale-dependent folding of non-ASCII letters by `_wcsnicmp` is not modelled.
- Worker.ProcessDir: the LONG64 counters are unbounded integers, so their overflow is not modelled.
- A NULL needle or filter is not modelled, because strings are values. The source treats NULL like the empty string.
- Token trimming: lines 50-52 skip only leading ',', ' ' and '\t', so trailing blanks stay in a token. The model does the same (`TrailingBlankRejects`).
- WideStr.WStr: a Dafny `char` is a Unicode scalar value and stands here for one UTF-16 unit. Names holding surrogate pairs (two `wchar_t` units each) are outside the model, so for them `JoinFits`/`GlobFits` would count fewer units than `wcslen` does.
