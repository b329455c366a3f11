# pwordcount, modelled in Dafny

pwordcount counts the words in text files. It has three modes:

- `-m t`: the total number of words.
- `-m u`: the number of distinct words.
- `-m o`: how often each word occurs.

The work is spread over `-p n` worker processes in one of two ways:

- `divide_between` puts whole files on a queue that the workers drain.
- `divide_one_file` is used for a single file. It cuts the file into `n` chunks, and each chunk worker adds its count to a shared 32-bit counter (`multiprocessing.Value('i')`) or prints its own table.

This project models the logic underneath the processes:

- the chunk plan;
- the clamping of the worker count;
- the order of the queue;
- the six workers `t`, `u`, `o`, `t_words`, `u_words` and `o_words`;
- `main`'s choice between the two ways.

It proves what each piece computes and what the pieces add up to.

Modules:

- `Text` (text.dfy): `str.split()` as a whitespace tokenizer. Whitespace is the set of characters for which `str.isspace()` holds. Files are snapshots `TextFile(path, size, lines)`.
- `Tally` (tally.dfy): `collections.Counter`. It keeps a count per word and lists the words in first-insertion order. It also builds the printed table, which says `time` or `times`.
- `Planner` (planner.dfy): the chunk bounds `(start_line, end_line)` and what each kind of chunk worker reads:
  - a line range for `u_words`;
  - a `sed -n a,bp` range for `t_words`;
  - the token positions `split()[a:b]` of every line for `o_words`.
  It also states what the chunk sums amount to.
- `Distributor` (distributor.dfy): the file queue, a class over a `seq`. It also holds the worker count and the stable largest-first sort.
- `Workers` (workers.dfy): the queue workers, each a method that drains the queue. It also holds the chunk workers, which update a `SharedCounter` class whose `value` wraps at 32 bits as a C `int` does.
- `Dispatch` (dispatch.dfy): `divide_between`, `divide_one_file`, and `main`'s dispatch rule, together with end-to-end lemmas about the reports.

The processes run one after another. The first queue worker therefore drains the whole queue, and any later worker finds it empty. Each printed result is a `Report` value.

The source has several quirks, and the model keeps each of them. The lemmas say what each one amounts to:

- Chunk bounds are computed from the byte size but used as line numbers (`u_words`, `t_words`) or as token positions within each line (`o_words`).
- Chunk 0 starts at 1.
- `u_words` counts distinct words per chunk rather than per file.
- `t_words` uses inclusive `sed` ranges.
- `n <= 0` starts no worker at all.

## Model

| member | source | states |
|---|---|---|
| Text.SplitWords | pwordcount.py:176 | every token of `line.split()` is non-empty and holds no whitespace |
| Text.SplitJoin | pwordcount.py:176 | splitting words joined by single spaces gives back exactly those words |
| Text.SplitKeepsNonSpace | pwordcount.py:176 | the tokens of a line, written one after another, are exactly its non-whitespace characters in their order |
| Text.SplitAtSpace | pwordcount.py:176 | a whitespace character always separates tokens: the tokens of a + [c] + b are the tokens of a followed by those of b |
| Text.SplitEmpty | pwordcount.py:176 | a line yields no token exactly when it is all whitespace |
| Text.TokensWords | pwordcount.py:174-177 | the tokens of all lines read in order are all proper words |
| Text.TokensAppend | pwordcount.py:174-177 | reading two runs of lines one after the other yields the tokens of the first and then of the second |
| Text.TokenCountAdditive | pwordcount.py:140 | token counts add up over consecutive runs of lines |
| Text.TokenSetAppend | pwordcount.py:177 | the distinct tokens of two runs are the union of each run's distinct tokens |
| Text.TokenSetHas | pwordcount.py:173-177 | a word in some line's split is among the file's distinct tokens |
| Text.TokenSetWitness | pwordcount.py:173-177 | every distinct token of a file comes from the split of one of its lines, which the lemma names |
| Text.TokenSetMembers | pwordcount.py:173-177 | a word is among a file's distinct tokens iff some line's split contains it |
| Text.DistinctNoMoreThanTotal | pwordcount.py:177 | a file never has more distinct tokens than tokens |
| Tally.Count | pwordcount.py:222-226 | the counter built by `update` keeps a count for every listed word |
| Tally.CountDescribes | pwordcount.py:222-226 | `Counter().update(ws)` lists each distinct word of ws once, in first-seen order, with its number of occurrences, and no other word |
| Tally.UpdateAppend | pwordcount.py:225-226 | updating line by line equals one update with all the lines' tokens |
| Tally.TotalAdd | pwordcount.py:225-226 | adding one word to a counter raises the sum of its table's counts by exactly one |
| Tally.CountTotal | pwordcount.py:228-233 | the counts of the printed table add up to the number of tokens |
| Tally.TableEntryCounts | pwordcount.py:229-233 | each printed line gives its word's number of occurrences (at least 1), with the unit `time` when that number is 1 and `times` otherwise |
| Tally.TableFirstSeenOrder | pwordcount.py:229 | the table lists distinct words, ordered by their first occurrence |
| Tally.TableListsEveryWord | pwordcount.py:229 | a word has a line in the table iff it occurs in the file |
| Planner.FloorDiv | pwordcount.py:39 | `size // n` is Python's floor division for either sign of n |
| Planner.PlanShape | pwordcount.py:39-46 | n chunks; chunk 0 is (1, size // n); each chunk ends where the next starts; the last ends at n * (size // n) <= size |
| Planner.LineInChunk | pwordcount.py:43-46 | line l is in chunk i iff l < n * chunk_size and l // chunk_size == i: the chunks cover lines 1 .. n * chunk_size - 1 once each |
| Planner.LinesBetweenStep | pwordcount.py:200-201 | reading line i + 1 adds it to the chunk's run exactly when start_line <= i + 1 < end_line |
| Planner.LinesBetweenJoin | pwordcount.py:201 | for line numbers 1 <= a <= b <= c, the lines of [a, b) followed by those of [b, c) are the lines of [a, c) |
| Planner.ChunkWordSetMembers | pwordcount.py:199-204 | a word is counted by a u_words chunk iff it is on a line whose number is in [start_line, end_line); other lines play no part |
| Planner.UniqueChunksOvercount | pwordcount.py:43-46 | the per-chunk distinct counts sum to at least the number of distinct tokens on the covered lines |
| Planner.UniqueOvercountExample | pwordcount.py:196-207 | two lines "a" in a 4-byte file with 2 workers give a sum of 2, while the file has 1 distinct word |
| Planner.SedChunkTokens | pwordcount.py:158 | `sed -n a,bp` counts line a plus the lines after it up to line b |
| Planner.TotalChunksCountBoundariesTwice | pwordcount.py:43-46 | the t_words sum is the tokens of lines 1 .. n * chunk_size plus those of every boundary line i * chunk_size once more; with chunk size 0 it is the first line's tokens |
| Planner.PySliceJoin | pwordcount.py:257 | adjacent Python slices with non-negative bounds put together form the joint slice |
| Planner.SliceTokensJoin | pwordcount.py:255-258 | for 0 <= a <= b <= c, the tokens at positions [a, b) and [b, c) of every line are, as a multiset, those at positions [a, c) |
| Planner.OccurrenceChunksCoverPositions | pwordcount.py:43-46 | the o_words chunks together count the tokens at positions 1 .. n * chunk_size - 1 of every line, each once |
| Distributor.FileQueue.IsEmpty | pwordcount.py:138 | `file_queue.empty()` holds iff the queue holds no file |
| Distributor.FileQueue.Get | pwordcount.py:139 | `get` returns the front file and removes it |
| Distributor.FileQueue.Put | pwordcount.py:106 | `put` appends the file at the back |
| Distributor.WorkerCount | pwordcount.py:87-94 | 1 when n == 1; otherwise min(n, len(files)); never above max(1, len(files)); at least 1 when n >= 1 and there are files |
| Distributor.SortPermutes | pwordcount.py:103 | the sort by size only reorders the files |
| Distributor.SortLargestFirst | pwordcount.py:103 | the sorted files are in non-increasing size |
| Distributor.SortStable | pwordcount.py:103 | files of equal size keep their input order |
| Distributor.QueueOrderSpec | pwordcount.py:98-109 | the queue holds each file exactly once; largest first when there are more files than workers; ties in input order |
| Workers.Wrap32 | pwordcount.py:159 | what a C `int` holds after being assigned x: a value in [-2^31, 2^31 - 1] that differs from x by a multiple of 2^32, and x itself when x is in that range |
| Workers.Wrap32Add | pwordcount.py:159 | wrapping after each addition gives the same value as wrapping the exact sum |
| Workers.SharedCounter.Add | pwordcount.py:159 | `words_count.value += k` stores old + k wrapped into the 32-bit range |
| Workers.T | pwordcount.py:138-142 | t drains the queue in order and reports each file's `wc -w` count |
| Workers.DistinctWords | pwordcount.py:173-177 | the set u builds is the set of the file's tokens |
| Workers.U | pwordcount.py:171-180 | u drains the queue, takes each file once in queue order, reports its number of distinct tokens, and leaves the queue empty |
| Workers.CountWords | pwordcount.py:222-226 | the Counter o builds is the counter of all the file's tokens |
| Workers.O | pwordcount.py:220-235 | o drains the queue in order and prints, for each file, its occurrence table, then the end-of-list and size lines |
| Workers.Drain | pwordcount.py:119-120 | the worker divide_between starts for a mode empties the queue and reports every file it held, in queue order, as that mode's worker does |
| Workers.TWords | pwordcount.py:158-159 | t_words adds the token count of the `sed -n start,endp` lines to the counter |
| Workers.DistinctWordsBetween | pwordcount.py:196-204 | the set u_words builds holds the distinct tokens of lines start_line <= l < end_line |
| Workers.UWords | pwordcount.py:196-207 | u_words adds exactly that set's size to the counter and changes nothing else |
| Workers.OWords | pwordcount.py:252-267 | o_words prints the table of the tokens at positions [start_line, end_line) of every line, with the heading only when start_line == 1 |
| Dispatch.DivideBetween | pwordcount.py:87-121 | divide_between reports every file in queue order when a worker starts, and nothing when n <= 0 |
| Dispatch.DivideOneFile | pwordcount.py:35-69 | divide_one_file fails on n == 0; otherwise the shared counter ends holding its old value plus the sum of the chunk counts, wrapped to 32 bits, and that is the count reported (t, u); in o mode the counter is untouched and the chunk tables are printed, then the end-of-list lines |
| Dispatch.RunChunks | pwordcount.py:43-57 | after the loop over range(n), the counter holds the wrapped sum of all chunk counts (t, u) and the printed tables are all chunk tables in order (o); no turn runs for n <= 0 |
| Dispatch.RunChunk | pwordcount.py:45-57 | one loop turn runs the chunk worker of the mode on chunk i's bounds |
| Dispatch.ProgressStep | pwordcount.py:43-57 | each chunk worker extends the counter's sum or the printed tables by its own chunk |
| Dispatch.StartsAtOne | pwordcount.py:45 | chunk i starts at line 1 only for chunk 0, or chunk 1 when chunk_size is 1 |
| Dispatch.Run | pwordcount.py:384-395 | several files or n == 1 go to divide_between; one file with n != 1 goes to divide_one_file; no file with n != 1 ends in IndexError |
| Dispatch.AllReportsSums | pwordcount.py:138-142 | the t reports of a queue add up to its files' token counts, and each file is closed once, in queue order |
| Dispatch.FileReportsClose | pwordcount.py:138-142 | the reports of one file close that file once and, in t mode, carry its token count |
| Dispatch.SortSums | pwordcount.py:103 | sorting changes neither the total token count nor which files there are |
| Dispatch.TotalModeCountsEveryToken | pwordcount.py:98-121 | with n >= 1, the t counts of divide_between add up to the tokens of all files together |
| Dispatch.EveryFileClosedOnce | pwordcount.py:98-121 | with n >= 1, every file is closed once by its count or end-of-list line; with n <= 0, none is |
| Dispatch.OneFileTablesCountPositions | pwordcount.py:43-57 | for one file in o mode, the printed counts add up to the number of token positions 1 .. n * chunk_size - 1 over all lines |
| Dispatch.HeadingsOfTables | pwordcount.py:261-262 | the printed chunk tables carry one heading per chunk that starts at line 1 |
| Dispatch.OpeningChunksCount | pwordcount.py:43-46 | of k chunks of size cs, none starts at 1 when k == 0, two when cs == 1 and k >= 2, and one otherwise |
| Dispatch.OneFileHeadings | pwordcount.py:261-262 | for one file in o mode the heading is printed once, or twice when chunk_size is 1 and n >= 2 |

## Left out

- Processes, `start`/`join` and the `multiprocessing.Queue`: the workers run one after another. The race between `empty()` and `get()` and the interleaving of printed lines are not modelled. Nor are lost updates of the shared counter: `words_count.value += len(unique_words)` (pwordcount.py:207) in concurrent `u_words` processes reads and writes the value under separate locks, so one worker's addition can overwrite another's and the program can report less than the sum. The model's `SharedCounter.Add` and `UWords` give the sequential result, with every addition kept. `t_words` is not affected: divide_one_file calls it directly, one call after another, in the parent process (pwordcount.py:48-50), so `TWords` is what the program does.
- The test `auxiliaryFunction == "t_words"` in divide_between compares a function with a string. It only decides whether a process is spawned, and processes are not modelled.
- The `cat | wc -w` and `sed -n a,bp | wc -w` pipelines are external programs. Their counts are modelled as the number of whitespace-separated tokens, and the `sed` range follows GNU sed: address 0 prints nothing, and an end before the start prints only the start line. Locale effects and the byte-level behaviour of `wc` are not modelled. One `lines` sequence stands for both views of a file. Python's text-mode `for line in f` ends a line at `\n`, `\r\n` or a bare `\r`, while `sed` numbers only `\n`-terminated lines. The two differ on files with bare `\r` line ends, and the model assumes they agree.
- `os.path.getsize` and opening the files: each file is given as its path, size in bytes and lines. A missing file, and its exception, are not modelled.
- Command-line decoding and validation in `main` (pwordcount.py:296-376), including `int()` failures and `sys.exit`. `Run` takes the decoded mode, worker count and files. Without `-p`, main calls divide_between with 1 worker, which is `Run` with n == 1.
- Printing: the texts of the lines are not modelled. This covers the "Using n processes" lines, the blank lines, and the formatting of counts and sizes. Each printed result is a `Report` value.
- The `lines_processed` counters of u_words and o_words are never read, so they are not modelled.
- Distributor.FileQueue.Get: requires a non-empty queue, because the workers call it only after `empty()` returned false. A `get` on an empty queue would block.
- Workers.T: the count of `wc -w` is the token count of the lines. Bytes that the terminal's locale would treat differently are not modelled.
