/** The worker functions of pwordcount, run one after another: the queue
    workers t, u and o, which drain the file queue and report whole files,
    and the chunk workers t_words, u_words and o_words, which each handle
    one planned chunk of a single file. */
module Workers {
  import opened Seqs
  import opened Text
  import opened Tally
  import opened Planner
  import opened Distributor

  /** The metric asked for with -m: t (total), u (unique) or o (occurrences). */
  datatype Mode = Total | Unique | Occurrence

  /** One reported result, as printed:
      Words:       'The file "<path>" has <count> words, and a total size of <size> bytes.'
      UniqueWords: 'The file "<path>" has <count> unique words, ...'
      Occurrences: the heading 'Number of occurrences of each word in "<path>":'
                   when header holds, then one '<word>: <n> time[s]' line per entry
      EndOfList:   '• End of list •' and 'Size of "<path>": <size> bytes.' */
  datatype Report =
    | Words(path: string, count: int, size: nat)
    | UniqueWords(path: string, count: int, size: nat)
    | Occurrences(path: string, header: bool, entries: seq<Entry>)
    | EndOfList(path: string, size: nat)

  /** What `wc -w` reports for these lines: their whitespace-separated tokens. */
  function WcWords(lines: seq<string>): nat
  {
    |Tokens(lines)|
  }

  /** What a queue worker of the given mode reports for one whole file. */
  function FileReports(mode: Mode, f: TextFile): seq<Report>
  {
    match mode
    case Total => [Words(f.path, WcWords(f.lines), f.size)]
    case Unique => [UniqueWords(f.path, |TokenSet(f.lines)|, f.size)]
    case Occurrence => [Occurrences(f.path, true, OccurrenceTable(Tokens(f.lines))), EndOfList(f.path, f.size)]
  }

  /** The reports for the files in the order given. */
  function AllReports(mode: Mode, files: seq<TextFile>): seq<Report>
  {
    if files == [] then [] else FileReports(mode, files[0]) + AllReports(mode, files[1..])
  }

  // ---- the shared counter: multiprocessing.Value('i', 0) ----

  const IntMin: int := -0x8000_0000
  const IntMax: int := 0x7FFF_FFFF

  /** What a C int holds after being assigned x: x wrapped into 32 bits. */
  function Wrap32(x: int): (r: int)
    ensures IntMin <= r <= IntMax
    ensures (r - x) % 0x1_0000_0000 == 0
    ensures IntMin <= x <= IntMax ==> r == x
  {
    (x + 0x8000_0000) % 0x1_0000_0000 - 0x8000_0000
  }

  lemma ModShift(y: int, q: int)
    ensures (0x1_0000_0000 * q + y) % 0x1_0000_0000 == y % 0x1_0000_0000
  {
  }

  /** Adding to a wrapped value and wrapping again wraps the exact sum:
      the counter's final value depends only on the total it was given. */
  lemma Wrap32Add(a: int, b: int)
    ensures Wrap32(Wrap32(a) + b) == Wrap32(a + b)
  {
    var x := a + 0x8000_0000;
    ModShift(x % 0x1_0000_0000 + b, x / 0x1_0000_0000);
    assert x == 0x1_0000_0000 * (x / 0x1_0000_0000) + x % 0x1_0000_0000;
  }

  /** The shared words_count: a 32-bit C int that the chunk workers add to;
      ctypes wraps a value that does not fit instead of failing. */
  class SharedCounter {
    var value: int

    ghost predicate Valid()
      reads this
    {
      IntMin <= value <= IntMax
    }

    constructor ()
      ensures Valid() && value == 0
    {
      value := 0;
    }

    /** words_count.value += k */
    method Add(k: int)
      modifies this
      ensures Valid()
      ensures value == Wrap32(old(value) + k)
    {
      value := Wrap32(value + k);
    }
  }

  // ---- queue workers: while not file_queue.empty(): file = file_queue.get() ----

  /** t: each queued file's `cat <file> | wc -w` count. */
  method T(q: FileQueue) returns (out: seq<Report>)
    modifies q
    ensures q.items == []
    ensures out == AllReports(Total, old(q.items))
  {
    out := [];
    var empty := q.IsEmpty();
    while !empty
      invariant empty <==> q.items == []
      invariant out + AllReports(Total, q.items) == AllReports(Total, old(q.items))
      decreases |q.items|
    {
      var f := q.Get();
      var words := WcWords(f.lines);
      AppendAssoc(out, [Words(f.path, words, f.size)], AllReports(Total, q.items));
      out := out + [Words(f.path, words, f.size)];
      empty := q.IsEmpty();
    }
    AppendNil(out);
  }

  /** The set u builds for one file with unique_words.update(line.split()):
      its distinct tokens. */
  method DistinctWords(lines: seq<string>) returns (unique: set<string>)
    ensures unique == TokenSet(lines)
  {
    unique := {};
    for i := 0 to |lines|
      invariant unique == TokenSet(lines[..i])
    {
      assert lines[..i + 1][..i] == lines[..i];
      unique := unique + SetOf(Split(lines[i]));
    }
    assert lines[..|lines|] == lines;
  }

  /** u: each queued file's number of distinct tokens. */
  method U(q: FileQueue) returns (out: seq<Report>)
    modifies q
    ensures q.items == []
    ensures out == AllReports(Unique, old(q.items))
  {
    out := [];
    var empty := q.IsEmpty();
    while !empty
      invariant empty <==> q.items == []
      invariant out + AllReports(Unique, q.items) == AllReports(Unique, old(q.items))
      decreases |q.items|
    {
      var f := q.Get();
      var unique := DistinctWords(f.lines);
      AppendAssoc(out, [UniqueWords(f.path, |unique|, f.size)], AllReports(Unique, q.items));
      out := out + [UniqueWords(f.path, |unique|, f.size)];
      empty := q.IsEmpty();
    }
    AppendNil(out);
  }

  /** The Counter o builds for one file with word_counts.update(line.split()):
      the counter of all its tokens. */
  method CountWords(lines: seq<string>) returns (c: Counter)
    ensures c == Count(Tokens(lines))
  {
    c := Empty;
    for i := 0 to |lines|
      invariant c == Count(Tokens(lines[..i]))
    {
      assert lines[..i + 1][..i] == lines[..i];
      UpdateAppend(Empty, Tokens(lines[..i]), Split(lines[i]));
      c := Update(c, Split(lines[i]));
    }
    assert lines[..|lines|] == lines;
  }

  /** o: each queued file's occurrence table, then its end-of-list lines. */
  method O(q: FileQueue) returns (out: seq<Report>)
    modifies q
    ensures q.items == []
    ensures out == AllReports(Occurrence, old(q.items))
  {
    out := [];
    var empty := q.IsEmpty();
    while !empty
      invariant empty <==> q.items == []
      invariant out + AllReports(Occurrence, q.items) == AllReports(Occurrence, old(q.items))
      decreases |q.items|
    {
      var f := q.Get();
      var c := CountWords(f.lines);
      var printed := [Occurrences(f.path, true, Table(c)), EndOfList(f.path, f.size)];
      AppendAssoc(out, printed, AllReports(Occurrence, q.items));
      out := out + printed;
      empty := q.IsEmpty();
    }
    AppendNil(out);
  }

  /** The queue worker for a mode: the auxiliaryFunction divide_between starts. */
  method Drain(q: FileQueue, mode: Mode) returns (out: seq<Report>)
    modifies q
    ensures q.items == []
    ensures out == AllReports(mode, old(q.items))
  {
    match mode
    case Total => out := T(q);
    case Unique => out := U(q);
    case Occurrence => out := O(q);
  }

  // ---- chunk workers: (file, start_line, end_line, words_count) ----

  /** t_words: adds the `sed -n start,endp <file> | wc -w` count. */
  method TWords(f: TextFile, start: int, end: int, wordsCount: SharedCounter)
    modifies wordsCount
    ensures wordsCount.Valid()
    ensures wordsCount.value == Wrap32(old(wordsCount.value) + WcWords(SedRange(f.lines, start, end)))
  {
    var words := WcWords(SedRange(f.lines, start, end));
    wordsCount.Add(words);
  }

  /** The set u_words builds: the distinct tokens of the lines numbered
      start <= l < end. */
  method DistinctWordsBetween(lines: seq<string>, start: int, end: int) returns (unique: set<string>)
    ensures unique == ChunkWordSet(lines, Chunk(start, end))
  {
    unique := {};
    for i := 0 to |lines|
      invariant unique == TokenSet(LinesBetween(lines[..i], start, end))
    {
      var lineNum := i + 1;
      ghost var before := LinesBetween(lines[..i], start, end);
      LinesBetweenStep(lines, i, start, end);
      if start <= lineNum < end {
        TokenSetAppend(before, [lines[i]]);
        TokensOne(lines[i]);
        unique := unique + SetOf(Split(lines[i]));
      } else {
        assert LinesBetween(lines[..i + 1], start, end) == before;
      }
    }
    assert lines[..|lines|] == lines;
  }

  /** u_words: adds the number of distinct tokens of its lines. */
  method UWords(f: TextFile, start: int, end: int, wordsCount: SharedCounter)
    modifies wordsCount
    ensures wordsCount.Valid()
    ensures wordsCount.value == Wrap32(old(wordsCount.value) + |ChunkWordSet(f.lines, Chunk(start, end))|)
  {
    var unique := DistinctWordsBetween(f.lines, start, end);
    wordsCount.Add(|unique|);
  }

  /** o_words: the table of the tokens at positions start .. end-1 of every
      line, with the heading only for the chunk that starts at 1. */
  method OWords(f: TextFile, start: int, end: int) returns (table: Report)
    ensures table == Occurrences(f.path, start == 1, OccurrenceTable(SliceTokens(f.lines, start, end)))
  {
    var c := Empty;
    for i := 0 to |f.lines|
      invariant c == Count(SliceTokens(f.lines[..i], start, end))
    {
      var words := PySlice(Split(f.lines[i]), start, end);
      assert f.lines[..i + 1][..i] == f.lines[..i];
      UpdateAppend(Empty, SliceTokens(f.lines[..i], start, end), words);
      c := Update(c, words);
    }
    assert f.lines[..|f.lines|] == f.lines;
    table := Occurrences(f.path, start == 1, Table(c));
  }
}
