/** The two ways pwordcount runs its workers, and main's choice between
    them: divide_between hands whole files to queue workers, and
    divide_one_file cuts a single file into chunks for chunk workers that
    share one counter. */
module Dispatch {
  import opened Seqs
  import opened Text
  import opened Tally
  import opened Planner
  import opened Distributor
  import opened Workers

  /** The exceptions the dispatch can end in. */
  datatype Error =
    | ZeroDivisionError  // file_size // 0 in divide_one_file
    | IndexError         // files[0] with no file named

  datatype Result<T> = Ok(value: T) | Err(error: Error)

  // ---- divide_between ----

  /** What divide_between reports: with k workers started, the first
      drains the queue, so every file is reported in queue order; with no
      worker started (n <= 0), nothing is reported. */
  function BetweenReports(files: seq<TextFile>, n: int, mode: Mode): seq<Report>
  {
    var k := WorkerCount(n, |files|);
    if k >= 1 then AllReports(mode, QueueOrder(files, k)) else []
  }

  /** divide_between(files, n, mode): clamps the number of workers, fills
      the queue (sorted largest first when there are more files than
      workers) and starts the workers one after another. */
  method DivideBetween(files: seq<TextFile>, n: int, mode: Mode) returns (out: seq<Report>)
    ensures out == BetweenReports(files, n, mode)
    ensures n <= 0 ==> out == []
  {
    var k := if n == 1 then 1 else if n > |files| then |files| else n;
    var queue := new FileQueue();
    var order := if |files| > k then SortBySize(files) else files;
    for j := 0 to |order|
      invariant queue.items == order[..j]
    {
      PrefixSnoc(order, j);
      queue.Put(order[j]);
    }
    PrefixAll(order);
    assert k == WorkerCount(n, |files|) && order == QueueOrder(files, k);
    out := [];
    var w := 0;
    while w < k
      invariant 0 <= w && (k >= 0 ==> w <= k) && (k <= 0 ==> w == 0)
      invariant w == 0 ==> out == [] && queue.items == order
      invariant w > 0 ==> out == AllReports(mode, order) && queue.items == []
    {
      // every started worker prints what it drains; only the first finds files
      var printed := Drain(queue, mode);
      NilAppend(printed);
      AppendNil(out);
      out := out + printed;
      w := w + 1;
    }
  }

  // ---- divide_one_file ----

  /** The table o_words prints for one chunk of f. */
  function ChunkTable(f: TextFile, c: Chunk): Report
  {
    Occurrences(f.path, c.start == 1, OccurrenceTable(SliceTokens(f.lines, c.start, c.end)))
  }

  /** The tables of the chunks of a plan, in chunk order. */
  function ChunkTables(f: TextFile, plan: seq<Chunk>): seq<Report>
  {
    if plan == [] then []
    else ChunkTables(f, plan[..|plan| - 1]) + [ChunkTable(f, plan[|plan| - 1])]
  }

  /** What divide_one_file(f, n, mode) reports when the shared counter
      starts at base: the wrapped sum of the chunk counts in t and u mode,
      the chunk tables and the end-of-list lines in o mode. */
  function OneFileReports(f: TextFile, n: int, mode: Mode, base: int): Result<seq<Report>>
  {
    if n == 0 then Err(ZeroDivisionError)
    else
      var plan := Plan(f.size, n);
      match mode
      case Total => Ok([Words(f.path, Wrap32(base + SedSum(f.lines, plan)), f.size)])
      case Unique => Ok([UniqueWords(f.path, Wrap32(base + UniqueSum(f.lines, plan)), f.size)])
      case Occurrence => Ok(ChunkTables(f, plan) + [EndOfList(f.path, f.size)])
  }

  /** divide_one_file(f, n, mode, words_count): plans n chunks of
      size // n lines and runs one chunk worker per chunk. */
  method DivideOneFile(f: TextFile, n: int, mode: Mode, wordsCount: SharedCounter) returns (r: Result<seq<Report>>)
    requires wordsCount.Valid()
    modifies wordsCount
    ensures wordsCount.Valid()
    ensures r == OneFileReports(f, n, mode, old(wordsCount.value))
    ensures n != 0 && mode == Total ==> wordsCount.value == Wrap32(old(wordsCount.value) + SedSum(f.lines, Plan(f.size, n)))
    ensures n != 0 && mode == Unique ==> wordsCount.value == Wrap32(old(wordsCount.value) + UniqueSum(f.lines, Plan(f.size, n)))
    ensures mode == Occurrence || n == 0 ==> wordsCount.value == old(wordsCount.value)
  {
    if n == 0 {
      return Err(ZeroDivisionError);
    }
    var chunkSize := FloorDiv(f.size, n);
    ghost var base := wordsCount.value;
    var tables;
    ghost var sum;
    tables, sum := RunChunks(f, n, chunkSize, mode, wordsCount);
    ProgressAt(f, chunkSize, if n > 0 then n else 0, mode, base, sum, wordsCount.value, tables);
    assert Plan(f.size, n) == Chunks(chunkSize, if n > 0 then n else 0);
    ReportsDone(f, n, mode, base, sum, wordsCount.value, tables);
    match mode {
      case Total => r := Ok([Words(f.path, wordsCount.value, f.size)]);
      case Unique => r := Ok([UniqueWords(f.path, wordsCount.value, f.size)]);
      case Occurrence => r := Ok(tables + [EndOfList(f.path, f.size)]);
    }
  }

  /** The loop `for i in range(n)` of divide_one_file: the chunk workers
      of chunks 0 .. n-1, one after another. */
  method RunChunks(f: TextFile, n: int, chunkSize: int, mode: Mode, wordsCount: SharedCounter)
    returns (tables: seq<Report>, ghost sum: int)
    requires wordsCount.Valid()
    modifies wordsCount
    ensures wordsCount.Valid()
    ensures Progress(f, chunkSize, if n > 0 then n else 0, mode, old(wordsCount.value), sum, wordsCount.value, tables)
  {
    ghost var base := wordsCount.value;
    sum := 0;
    tables := [];
    var i := 0;
    // range(n) is empty when n is negative
    var m := if n > 0 then n else 0;
    while i < m
      invariant 0 <= i <= m
      invariant wordsCount.Valid()
      invariant Progress(f, chunkSize, i, mode, base, sum, wordsCount.value, tables)
    {
      ghost var before, previous, done := wordsCount.value, sum, tables;
      var printed := RunChunk(f, i, chunkSize, mode, wordsCount);
      tables := tables + printed;
      sum := sum + ChunkCount(f, ChunkAt(i, chunkSize), mode);
      i := i + 1;
      ProgressStep(f, chunkSize, i - 1, mode, base, previous, before, done, i, sum, wordsCount.value, tables);
    }
  }

  /** The state of divide_one_file after the workers of chunks 0 .. i-1:
      the counter holds the wrapped sum of their counts (t and u mode),
      and their tables have been printed (o mode). */
  ghost predicate Progress(f: TextFile, cs: int, i: nat, mode: Mode, base: int, sum: int, value: int, tables: seq<Report>)
  {
    && value == Wrap32(base + sum)
    && (mode == Total ==> sum == SedSum(f.lines, Chunks(cs, i)))
    && (mode == Unique ==> sum == UniqueSum(f.lines, Chunks(cs, i)))
    && (mode == Occurrence ==> sum == 0 && tables == ChunkTables(f, Chunks(cs, i)))
  }

  /** What the progress after the workers of chunks 0 .. k-1 says about the
      counter and the printed tables. */
  lemma ProgressAt(f: TextFile, cs: int, k: nat, mode: Mode, base: int, sum: int, value: int, tables: seq<Report>)
    requires Progress(f, cs, k, mode, base, sum, value, tables)
    ensures value == Wrap32(base + sum)
    ensures mode == Total ==> sum == SedSum(f.lines, Chunks(cs, k))
    ensures mode == Unique ==> sum == UniqueSum(f.lines, Chunks(cs, k))
    ensures mode == Occurrence ==> sum == 0 && tables == ChunkTables(f, Chunks(cs, k))
  {
  }

  /** Running the worker of chunk i carries the progress over to chunk i + 1. */
  lemma ProgressStep(f: TextFile, cs: int, i: nat, mode: Mode, base: int, sum: int, value: int, tables: seq<Report>,
                     i': nat, sum': int, value': int, tables': seq<Report>)
    requires Progress(f, cs, i, mode, base, sum, value, tables)
    requires i' == i + 1
    requires value' == Wrap32(value + ChunkCount(f, ChunkAt(i, cs), mode))
    requires sum' == sum + ChunkCount(f, ChunkAt(i, cs), mode)
    requires tables' == tables + if mode == Occurrence then [ChunkTable(f, ChunkAt(i, cs))] else []
    ensures Progress(f, cs, i', mode, base, sum', value', tables')
  {
    var more := ChunkCount(f, ChunkAt(i, cs), mode);
    CounterStep(base, sum, more, sum', value, value');
    match mode {
      case Total => TotalStep(f, cs, i);
      case Unique => UniqueStep(f, cs, i);
      case Occurrence => TablesStep(f, cs, i);
    }
  }

  /** The counter and the printed tables at the end are what divide_one_file
      reports. */
  lemma ReportsDone(f: TextFile, n: int, mode: Mode, base: int, sum: int, value: int, tables: seq<Report>)
    requires n != 0
    requires value == Wrap32(base + sum)
    requires mode == Total ==> sum == SedSum(f.lines, Plan(f.size, n))
    requires mode == Unique ==> sum == UniqueSum(f.lines, Plan(f.size, n))
    requires mode == Occurrence ==> tables == ChunkTables(f, Plan(f.size, n))
    ensures mode == Total ==> OneFileReports(f, n, mode, base) == Ok([Words(f.path, value, f.size)])
    ensures mode == Unique ==> OneFileReports(f, n, mode, base) == Ok([UniqueWords(f.path, value, f.size)])
    ensures mode == Occurrence ==> OneFileReports(f, n, mode, base) == Ok(tables + [EndOfList(f.path, f.size)])
  {
  }

  /** A counter that holds the wrapped sum of the first counts, and then
      is given one more, holds the wrapped sum of all of them. */
  lemma CounterStep(base: int, sum: int, more: int, total: int, before: int, after: int)
    requires before == Wrap32(base + sum)
    requires after == Wrap32(before + more)
    requires total == sum + more
    ensures after == Wrap32(base + total)
  {
    Wrap32Add(base + sum, more);
    assert base + total == base + sum + more;
  }

  /** What the chunk worker of a mode adds to the shared counter for one
      chunk: nothing in o mode. */
  function ChunkCount(f: TextFile, c: Chunk, mode: Mode): nat
  {
    match mode
    case Total => |Tokens(SedRange(f.lines, c.start, c.end))|
    case Unique => |ChunkWordSet(f.lines, c)|
    case Occurrence => 0
  }

  /** One turn of divide_one_file's loop: the bounds of chunk i, then
      auxiliaryFunction(file, start_line, end_line, words_count). */
  method RunChunk(f: TextFile, i: int, chunkSize: int, mode: Mode, wordsCount: SharedCounter) returns (printed: seq<Report>)
    requires wordsCount.Valid()
    modifies wordsCount
    ensures wordsCount.Valid()
    ensures wordsCount.value == Wrap32(old(wordsCount.value) + ChunkCount(f, ChunkAt(i, chunkSize), mode))
    ensures printed == if mode == Occurrence then [ChunkTable(f, ChunkAt(i, chunkSize))] else []
  {
    var start := if i != 0 then i * chunkSize else 1;
    var end := (i + 1) * chunkSize;
    match mode {
      case Total =>
        TWords(f, start, end, wordsCount);
        printed := [];
      case Unique =>
        UWords(f, start, end, wordsCount);
        printed := [];
      case Occurrence =>
        var table := OWords(f, start, end);
        printed := [table];
    }
  }

  /** Running one more t_words worker adds its chunk's count. */
  lemma TotalStep(f: TextFile, cs: int, i: nat)
    ensures var c := ChunkAt(i, cs);
      SedSum(f.lines, Chunks(cs, i + 1)) == SedSum(f.lines, Chunks(cs, i)) + |Tokens(SedRange(f.lines, c.start, c.end))|
  {
    ChunksSnoc(cs, i);
    assert Chunks(cs, i + 1)[..i] == Chunks(cs, i);
  }

  /** Running one more u_words worker adds its chunk's count. */
  lemma UniqueStep(f: TextFile, cs: int, i: nat)
    ensures UniqueSum(f.lines, Chunks(cs, i + 1)) == UniqueSum(f.lines, Chunks(cs, i)) + |ChunkWordSet(f.lines, ChunkAt(i, cs))|
  {
    ChunksSnoc(cs, i);
    assert Chunks(cs, i + 1)[..i] == Chunks(cs, i);
  }

  /** Running one more o_words worker prints its chunk's table. */
  lemma TablesStep(f: TextFile, cs: int, i: nat)
    ensures ChunkTables(f, Chunks(cs, i + 1)) == ChunkTables(f, Chunks(cs, i)) + [ChunkTable(f, ChunkAt(i, cs))]
  {
    ChunksSnoc(cs, i);
    assert Chunks(cs, i + 1)[..i] == Chunks(cs, i);
  }

  /** Chunk i starts at line 1 only when it is chunk 0, or chunk 1 of
      one-line chunks. */
  lemma StartsAtOne(i: nat, cs: int)
    ensures ChunkAt(i, cs).start == 1 <==> i == 0 || (i == 1 && cs == 1)
  {
    if i >= 2 {
      if cs >= 1 {
        MulMono(2, i, cs);
      } else {
        MulMono(0, i, -cs);
      }
    }
  }

  // ---- main ----

  /** main's dispatch once the command line has given the mode, the number
      of workers n (1 without -p) and the files: several files, or one
      worker, go to divide_between; otherwise the first file goes to
      divide_one_file with a fresh shared counter. */
  method Run(mode: Mode, n: int, files: seq<TextFile>) returns (r: Result<seq<Report>>)
    ensures |files| > 1 || n == 1 ==> r == Ok(BetweenReports(files, n, mode))
    ensures |files| == 0 && n != 1 ==> r == Err(IndexError)
    ensures |files| == 1 && n != 1 ==> r == OneFileReports(files[0], n, mode, 0)
  {
    var wordsCount := new SharedCounter();
    if |files| > 1 || n == 1 {
      var out := DivideBetween(files, n, mode);
      r := Ok(out);
    } else if files == [] {
      r := Err(IndexError);
    } else {
      r := DivideOneFile(files[0], n, mode, wordsCount);
    }
  }

  // ---- what the reports add up to ----

  /** The sum of the counts of the t-mode reports. */
  function ReportedWords(reports: seq<Report>): int
  {
    if reports == [] then 0
    else
      var own := if reports[0].Words? then reports[0].count else 0;
      own + ReportedWords(reports[1..])
  }

  /** The paths of the reports that close a file: the count lines of t and
      u mode and the end-of-list lines of o mode. */
  function ClosedPaths(reports: seq<Report>): seq<string>
  {
    if reports == [] then []
    else (if reports[0].Occurrences? then [] else [reports[0].path]) + ClosedPaths(reports[1..])
  }

  /** The total number of tokens of the files. */
  function FileWords(files: seq<TextFile>): nat
  {
    if files == [] then 0 else WcWords(files[0].lines) + FileWords(files[1..])
  }

  /** The paths of the files. */
  function Paths(files: seq<TextFile>): seq<string>
  {
    if files == [] then [] else [files[0].path] + Paths(files[1..])
  }

  /** All the lines of the files, file after file. */
  function AllLines(files: seq<TextFile>): seq<string>
  {
    if files == [] then [] else files[0].lines + AllLines(files[1..])
  }

  lemma {:induction false} ReportedWordsAppend(a: seq<Report>, b: seq<Report>)
    ensures ReportedWords(a + b) == ReportedWords(a) + ReportedWords(b)
    ensures ClosedPaths(a + b) == ClosedPaths(a) + ClosedPaths(b)
  {
    if a == [] {
      assert a + b == b;
    } else {
      AppendRest(a, b);
      ReportedWordsAppend(a[1..], b);
    }
  }

  /** The reports of one file close that file once; in t mode they carry
      its token count. */
  lemma FileReportsClose(mode: Mode, f: TextFile)
    ensures mode == Total ==> ReportedWords(FileReports(mode, f)) == WcWords(f.lines)
    ensures ClosedPaths(FileReports(mode, f)) == [f.path]
  {
    var head := FileReports(mode, f);
    match mode {
      case Total =>
      case Unique =>
      case Occurrence =>
        assert head[1..] == [EndOfList(f.path, f.size)];
        assert ClosedPaths(head[1..]) == [f.path] + ClosedPaths(head[1..][1..]);
    }
  }

  /** In t mode the queue workers report every file's token count, and in
      every mode each file is closed once, in queue order. */
  lemma {:induction false} AllReportsSums(mode: Mode, files: seq<TextFile>)
    ensures mode == Total ==> ReportedWords(AllReports(mode, files)) == FileWords(files)
    ensures ClosedPaths(AllReports(mode, files)) == Paths(files)
  {
    if files != [] {
      var f := files[0];
      AllReportsSums(mode, files[1..]);
      ReportedWordsAppend(FileReports(mode, f), AllReports(mode, files[1..]));
      FileReportsClose(mode, f);
    }
  }

  lemma {:induction false} InsertSums(f: TextFile, sorted: seq<TextFile>)
    ensures FileWords(Insert(f, sorted)) == WcWords(f.lines) + FileWords(sorted)
    ensures multiset(Paths(Insert(f, sorted))) == multiset{f.path} + multiset(Paths(sorted))
  {
    if sorted == [] || sorted[0].size <= f.size {
      assert ([f] + sorted)[1..] == sorted;
    } else {
      InsertSums(f, sorted[1..]);
      var r := [sorted[0]] + Insert(f, sorted[1..]);
      assert r[0] == sorted[0] && r[1..] == Insert(f, sorted[1..]);
    }
  }

  /** Sorting the files by size changes neither the total token count nor
      which files there are. */
  lemma {:induction false} SortSums(files: seq<TextFile>)
    ensures FileWords(SortBySize(files)) == FileWords(files)
    ensures multiset(Paths(SortBySize(files))) == multiset(Paths(files))
  {
    if files != [] {
      SortSums(files[1..]);
      InsertSums(files[0], SortBySize(files[1..]));
    }
  }

  /** The token counts of the files add up to the token count of all their
      lines read one after another. */
  lemma {:induction false} FileWordsAllLines(files: seq<TextFile>)
    ensures FileWords(files) == |Tokens(AllLines(files))|
  {
    if files != [] {
      FileWordsAllLines(files[1..]);
      TokenCountAdditive(files[0].lines, AllLines(files[1..]));
    }
  }

  /** With at least one worker, divide_between in t mode reports counts
      that add up to the number of tokens in all the files together,
      whatever order the queue holds them in. */
  lemma TotalModeCountsEveryToken(files: seq<TextFile>, n: int)
    requires n >= 1
    ensures ReportedWords(BetweenReports(files, n, Total)) == |Tokens(AllLines(files))|
  {
    var k := WorkerCount(n, |files|);
    FileWordsAllLines(files);
    if k >= 1 {
      AllReportsSums(Total, QueueOrder(files, k));
      SortSums(files);
    }
  }

  /** With at least one worker, divide_between closes every file named,
      once each (by its count line or its end-of-list line); with none it
      closes nothing. */
  lemma EveryFileClosedOnce(files: seq<TextFile>, n: int, mode: Mode)
    ensures n >= 1 ==> multiset(ClosedPaths(BetweenReports(files, n, mode))) == multiset(Paths(files))
    ensures n <= 0 ==> ClosedPaths(BetweenReports(files, n, mode)) == []
  {
    var k := WorkerCount(n, |files|);
    if k >= 1 {
      AllReportsSums(mode, QueueOrder(files, k));
      SortSums(files);
    }
  }

  /** The sum of the counts of a list of tables. */
  function TableTotals(reports: seq<Report>): nat
  {
    if reports == [] then 0
    else
      var last := reports[|reports| - 1];
      var own := if last.Occurrences? then TotalOf(last.entries) else 0;
      TableTotals(reports[..|reports| - 1]) + own
  }

  lemma {:induction false} ChunkTablesTotal(f: TextFile, plan: seq<Chunk>)
    ensures TableTotals(ChunkTables(f, plan)) == |ChunkedSliceTokens(f.lines, plan)|
  {
    if plan != [] {
      var c := plan[|plan| - 1];
      var front := plan[..|plan| - 1];
      ChunkTablesTotal(f, front);
      CountTotal(SliceTokens(f.lines, c.start, c.end));
      var ts := ChunkTables(f, front) + [ChunkTable(f, c)];
      assert ts[..|ts| - 1] == ChunkTables(f, front);
    }
  }

  /** In o mode with one file and n > 0 workers, the counts of all the
      printed tables add up to the number of token positions 1 ..
      n * (size // n) - 1 over all lines: a line's first token is never
      counted, and neither is any token past the last chunk. */
  lemma OneFileTablesCountPositions(f: TextFile, n: int)
    requires n > 0
    ensures OneFileReports(f, n, Occurrence, 0).Ok?
    ensures var reports := OneFileReports(f, n, Occurrence, 0).value;
      TableTotals(reports[..|reports| - 1]) == |SliceTokens(f.lines, 1, n * (f.size / n))|
  {
    var plan := Plan(f.size, n);
    PlanChunks(f.size, n);
    var reports := ChunkTables(f, plan) + [EndOfList(f.path, f.size)];
    assert reports[..|reports| - 1] == ChunkTables(f, plan);
    ChunkTablesTotal(f, plan);
    OccurrenceChunksCoverPositions(f.lines, f.size, n);
    assert |ChunkedSliceTokens(f.lines, plan)| == |multiset(ChunkedSliceTokens(f.lines, plan))|;
  }

  /** The number of chunk tables that open with the heading. */
  function Headings(reports: seq<Report>): nat
  {
    if reports == [] then 0
    else
      var last := reports[|reports| - 1];
      var own := if last.Occurrences? && last.header then 1 else 0;
      Headings(reports[..|reports| - 1]) + own
  }

  /** The number of chunks of a plan that start at line 1. */
  function OpeningChunks(plan: seq<Chunk>): nat
  {
    if plan == [] then 0
    else OpeningChunks(plan[..|plan| - 1]) + (if plan[|plan| - 1].start == 1 then 1 else 0)
  }

  /** A chunk's table opens with the heading exactly when the chunk starts at 1. */
  lemma {:induction false} HeadingsOfTables(f: TextFile, plan: seq<Chunk>)
    ensures Headings(ChunkTables(f, plan)) == OpeningChunks(plan)
  {
    if plan != [] {
      var front := plan[..|plan| - 1];
      HeadingsOfTables(f, front);
      var ts := ChunkTables(f, front) + [ChunkTable(f, plan[|plan| - 1])];
      assert ts[..|ts| - 1] == ChunkTables(f, front);
    }
  }

  lemma {:induction false} OpeningChunksCount(cs: int, k: nat)
    ensures OpeningChunks(Chunks(cs, k)) == (if k == 0 then 0 else if cs == 1 && k >= 2 then 2 else 1)
  {
    if k > 0 {
      ChunksSnoc(cs, k - 1);
      OpeningChunksCount(cs, k - 1);
      var plan := Chunks(cs, k);
      assert plan[..k - 1] == Chunks(cs, k - 1);
      StartsAtOne(k - 1, cs);
    }
  }

  /** In o mode with one file and n > 0 workers the heading is printed
      once, by the chunk that starts at line 1, except when size // n is 1:
      then chunk 1 also starts at 1 and the heading is printed twice. */
  lemma OneFileHeadings(f: TextFile, n: int)
    requires n > 0
    ensures OneFileReports(f, n, Occurrence, 0).Ok?
    ensures Headings(OneFileReports(f, n, Occurrence, 0).value)
         == (if f.size / n == 1 && n >= 2 then 2 else 1)
  {
    var plan := Plan(f.size, n);
    PlanChunks(f.size, n);
    HeadingsOfTables(f, plan);
    OpeningChunksCount(f.size / n, n);
    var reports := ChunkTables(f, plan) + [EndOfList(f.path, f.size)];
    assert reports[..|reports| - 1] == ChunkTables(f, plan);
  }
}
