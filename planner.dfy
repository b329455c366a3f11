/** How divide_one_file cuts one file between n workers, and which lines or
    token positions each kind of chunk worker then reads. The bounds are
    derived from the file's size in BYTES but used as LINE numbers (by
    u_words and t_words) or as TOKEN POSITIONS within each line (by o_words);
    the model keeps that, and the lemmas below say what it amounts to. */
module Planner {
  import opened Seqs
  import opened Text

  /** The (start_line, end_line) pair handed to one chunk worker. */
  datatype Chunk = Chunk(start: int, end: int)

  /** Python's floor division a // b. */
  function FloorDiv(a: int, b: int): (q: int)
    requires b != 0
    ensures b > 0 ==> b * q <= a < b * q + b
    ensures b < 0 ==> b * q >= a > b * q + b
  {
    if b > 0 then a / b else (-a) / (-b)
  }

  /** The bounds of worker i for a given chunk size: chunk 0 starts at 1. */
  function ChunkAt(i: int, chunkSize: int): Chunk
  {
    Chunk(if i != 0 then i * chunkSize else 1, (i + 1) * chunkSize)
  }

  /** The bounds of workers 0 .. k-1. */
  function Chunks(chunkSize: int, k: nat): seq<Chunk>
  {
    seq(k, i => ChunkAt(i, chunkSize))
  }

  /** The chunks divide_one_file plans for a file of `size` bytes and n
      workers: chunk_size = size // n, one chunk per i in range(n) (none
      when n < 0). n == 0 is the caller's ZeroDivisionError. */
  function Plan(size: nat, n: int): seq<Chunk>
    requires n != 0
  {
    Chunks(FloorDiv(size, n), if n > 0 then n else 0)
  }

  /** For n > 0 the plan is the first n chunks of size size // n. */
  lemma PlanChunks(size: nat, n: int)
    requires n > 0
    ensures Plan(size, n) == Chunks(size / n, n)
  {
  }

  lemma ChunksSnoc(chunkSize: int, k: nat)
    ensures Chunks(chunkSize, k + 1) == Chunks(chunkSize, k) + [ChunkAt(k, chunkSize)]
  {
  }

  /** The plan has exactly n chunks; chunk 0 is (1, chunk_size); each
      chunk ends where the next one starts; the last ends at
      n * chunk_size, which is at most the size. */
  lemma PlanShape(size: nat, n: int)
    requires n > 0
    ensures var cs := size / n; var plan := Plan(size, n);
      && 0 <= cs
      && |plan| == n
      && plan[0] == Chunk(1, cs)
      && (forall i :: 0 <= i < n - 1 ==> plan[i].end == plan[i + 1].start)
      && plan[n - 1].end == n * cs <= size
  {
  }

  lemma MulMono(a: int, b: int, c: int)
    requires a <= b && 0 <= c
    ensures a * c <= b * c
  {
    assert (b - a) * c >= 0;
  }

  lemma DivSandwich(l: int, cs: int, i: int)
    requires cs > 0
    ensures i * cs <= l < (i + 1) * cs <==> l / cs == i
  {
    var q := l / cs;
    assert q * cs <= l < (q + 1) * cs;
    if i * cs <= l < (i + 1) * cs {
      if q < i {
        MulMono(q + 1, i, cs);
      } else if q > i {
        MulMono(i + 1, q, cs);
      }
    }
  }

  /** Line l (counting from 1) lies in chunk i of the plan exactly when it
      comes before line n * chunk_size and i is l // chunk_size: the chunks
      cover lines 1 .. n * chunk_size - 1 once each, and never any later line. */
  lemma LineInChunk(size: nat, n: int, l: int, i: int)
    requires n > 0 && 1 <= l && 0 <= i < n
    ensures var cs := size / n; var c := Plan(size, n)[i];
      c.start <= l < c.end <==> 0 < cs && l < n * cs && l / cs == i
  {
    var cs := size / n;
    var c := Plan(size, n)[i];
    assert c == ChunkAt(i, cs);
    if c.start <= l < c.end {
      assert i * cs <= l < (i + 1) * cs by {
        if i == 0 { assert 1 <= l; }
      }
      assert 0 < cs by {
        if cs <= 0 { MulMono(i, i + 1, 0); }
      }
      DivSandwich(l, cs, i);
      MulMono(i + 1, n, cs);
    }
    if 0 < cs && l < n * cs && l / cs == i {
      DivSandwich(l, cs, i);
    }
  }

  // ---- u_words: the lines numbered start_line <= l < end_line ----

  function Clamp(x: int, lo: int, hi: int): (r: int)
    requires lo <= hi
    ensures lo <= r <= hi
  {
    if x < lo then lo else if x > hi then hi else x
  }

  /** The lines whose 1-based number l satisfies a <= l < b, as one run. */
  function LinesBetween(lines: seq<string>, a: int, b: int): seq<string>
  {
    var lo := Clamp(a - 1, 0, |lines|);
    lines[lo..Clamp(b - 1, lo, |lines|)]
  }

  /** Reading one more line adds it exactly when its number is in range:
      the slice agrees with the `if start_line <= line_num < end_line`
      filter of the reading loop. */
  lemma LinesBetweenStep(lines: seq<string>, i: nat, a: int, b: int)
    requires i < |lines|
    ensures LinesBetween(lines[..i + 1], a, b)
         == LinesBetween(lines[..i], a, b) + (if a <= i + 1 < b then [lines[i]] else [])
  {
    if a - 1 <= i {
      var lo := Clamp(a - 1, 0, i);
      assert lo == Clamp(a - 1, 0, i + 1);
      if b - 1 <= i {
        var hi := Clamp(b - 1, lo, i);
        assert hi == Clamp(b - 1, lo, i + 1);
        SliceOfPrefix(lines, i, lo, hi);
        SliceOfPrefix(lines, i + 1, lo, hi);
      } else {
        SliceOfPrefix(lines, i, lo, i);
        SliceOfPrefix(lines, i + 1, lo, i + 1);
        SliceSnoc(lines, lo, i);
      }
    }
  }

  /** Adjacent ranges put together are the joint range. */
  lemma LinesBetweenJoin(lines: seq<string>, a: int, b: int, c: int)
    requires 1 <= a <= b <= c
    ensures LinesBetween(lines, a, c) == LinesBetween(lines, a, b) + LinesBetween(lines, b, c)
  {
    var lo := Clamp(a - 1, 0, |lines|);
    var mid := Clamp(b - 1, lo, |lines|);
    assert mid == Clamp(b - 1, 0, |lines|);
    SliceJoin(lines, lo, mid, Clamp(c - 1, lo, |lines|));
  }

  /** The distinct tokens of the lines a u_words worker reads for chunk c. */
  function ChunkWordSet(lines: seq<string>, c: Chunk): set<string>
  {
    TokenSet(LinesBetween(lines, c.start, c.end))
  }

  /** A token on a line of the chunk's range is among the chunk's distinct tokens. */
  lemma ChunkWordSetHas(lines: seq<string>, c: Chunk, j: int, w: string)
    requires 0 <= j < |lines| && c.start <= j + 1 < c.end && w in Split(lines[j])
    ensures w in ChunkWordSet(lines, c)
  {
    var lo := Clamp(c.start - 1, 0, |lines|);
    var run := LinesBetween(lines, c.start, c.end);
    assert run[j - lo] == lines[j];
    TokenSetHas(run, j - lo, w);
  }

  /** Every distinct token of a chunk is on a line of the chunk's range. */
  lemma ChunkWordSetWitness(lines: seq<string>, c: Chunk, w: string) returns (j: int)
    requires w in ChunkWordSet(lines, c)
    ensures 0 <= j < |lines| && c.start <= j + 1 < c.end && w in Split(lines[j])
  {
    var lo := Clamp(c.start - 1, 0, |lines|);
    var run := LinesBetween(lines, c.start, c.end);
    var k := TokenSetWitness(run, w);
    j := lo + k;
    assert run[k] == lines[j];
  }

  /** A token is among the chunk's distinct tokens exactly when it is on
      some line lines[j] whose number j + 1 satisfies c.start <= j + 1 <
      c.end: the lines outside the range play no part. */
  lemma ChunkWordSetMembers(lines: seq<string>, c: Chunk, w: string)
    ensures w in ChunkWordSet(lines, c)
        <==> exists j :: 0 <= j < |lines| && c.start <= j + 1 < c.end && w in Split(lines[j])
  {
    if w in ChunkWordSet(lines, c) {
      var j := ChunkWordSetWitness(lines, c, w);
    }
    if exists j :: 0 <= j < |lines| && c.start <= j + 1 < c.end && w in Split(lines[j]) {
      var j :| 0 <= j < |lines| && c.start <= j + 1 < c.end && w in Split(lines[j]);
      ChunkWordSetHas(lines, c, j, w);
    }
  }

  /** What the u_words workers of a plan add to the shared counter, in all:
      the sum of each chunk's own distinct-token count. */
  function UniqueSum(lines: seq<string>, plan: seq<Chunk>): nat
  {
    if plan == [] then 0
    else UniqueSum(lines, plan[..|plan| - 1]) + |ChunkWordSet(lines, plan[|plan| - 1])|
  }

  lemma {:induction false} UniqueSumCovers(lines: seq<string>, cs: int, k: nat)
    requires cs >= 1 && k >= 1
    ensures UniqueSum(lines, Chunks(cs, k)) >= |TokenSet(LinesBetween(lines, 1, k * cs))|
  {
    if k == 1 {
      assert Chunks(cs, 1)[..0] == [];
    } else {
      ChunksSnoc(cs, k - 1);
      UniqueSumCovers(lines, cs, k - 1);
      MulMono(1, k - 1, cs);
      LinesBetweenJoin(lines, 1, (k - 1) * cs, k * cs);
      TokenSetAppend(LinesBetween(lines, 1, (k - 1) * cs), LinesBetween(lines, (k - 1) * cs, k * cs));
    }
  }

  lemma {:induction false} UniqueSumEmptyChunks(lines: seq<string>, k: nat)
    ensures UniqueSum(lines, Chunks(0, k)) == 0
  {
    if k > 0 {
      ChunksSnoc(0, k - 1);
      UniqueSumEmptyChunks(lines, k - 1);
    }
  }

  /** Chunked unique counting over-counts: the sum of the per-chunk
      distinct counts is at least the number of distinct tokens on the lines
      the chunks cover (lines 1 .. n * chunk_size - 1), since a word that
      occurs in several chunks is counted once per chunk. */
  lemma UniqueChunksOvercount(lines: seq<string>, size: nat, n: int)
    requires n > 0
    ensures UniqueSum(lines, Plan(size, n)) >= |TokenSet(LinesBetween(lines, 1, n * (size / n)))|
  {
    var cs := size / n;
    if cs == 0 {
      UniqueSumEmptyChunks(lines, n);
    } else {
      UniqueSumCovers(lines, cs, n);
    }
  }

  /** The line "a" holds the one token "a". */
  lemma SingleWordLine()
    ensures Split("a") == ["a"]
    ensures Tokens(["a"]) == ["a"] && TokenSet(["a"]) == {"a"}
  {
    assert IsWord("a");
    SplitJoin(["a"]);
    TokensOne("a");
    assert SetOf(["a"]) == {"a"};
  }

  /** Two lines "a" hold the one distinct token "a". */
  lemma TwoLinesOneWord()
    ensures TokenSet(["a", "a"]) == {"a"}
  {
    SingleWordLine();
    TokensSnoc(["a"], "a");
    Twice("a");
    assert SetOf(["a", "a"]) == {"a"};
  }

  /** A 4-byte file with 2 workers is planned as the chunks (1, 2) and (2, 4). */
  lemma ExamplePlan()
    ensures Plan(4, 2) == [Chunk(1, 2), Chunk(2, 4)]
  {
    PlanChunks(4, 2);
  }

  /** Each of the two chunks of two lines "a" holds the one distinct token "a". */
  lemma ExampleChunkSets()
    ensures ChunkWordSet(["a", "a"], Chunk(1, 2)) == {"a"}
    ensures ChunkWordSet(["a", "a"], Chunk(2, 4)) == {"a"}
  {
    SingleWordLine();
    Twice("a");
    assert LinesBetween(["a", "a"], 1, 2) == ["a"];
    assert LinesBetween(["a", "a"], 2, 4) == ["a"];
  }

  /** The over-count is real: two lines "a" planned as two chunks of a
      4-byte file report 2 unique words where the file has 1. */
  lemma UniqueOvercountExample()
    ensures UniqueSum(["a", "a"], Plan(4, 2)) == 2
    ensures |TokenSet(["a", "a"])| == 1
  {
    TwoLinesOneWord();
    ExamplePlan();
    ExampleChunkSets();
    var plan := [Chunk(1, 2), Chunk(2, 4)];
    assert plan[..1] == [Chunk(1, 2)] && plan[..1][..0] == [];
  }

  // ---- t_words: the lines `sed -n start,endp` prints ----

  /** The lines GNU `sed -n a,bp` prints: none when a is below 1 (sed
      rejects line address 0) or past the end; line a alone when b < a;
      otherwise lines a through b, both included. */
  function SedRange(lines: seq<string>, a: int, b: int): seq<string>
  {
    if a < 1 || a > |lines| then []
    else if b < a then [lines[a - 1]]
    else lines[a - 1..if b < |lines| then b else |lines|]
  }

  /** The number of tokens on line l (counting from 1), 0 past the end. */
  function LineTokenCount(lines: seq<string>, l: int): nat
  {
    if 1 <= l <= |lines| then |Split(lines[l - 1])| else 0
  }

  /** What the t_words calls of a plan add to the shared counter, in all. */
  function SedSum(lines: seq<string>, plan: seq<Chunk>): nat
  {
    if plan == [] then 0
    else
      var c := plan[|plan| - 1];
      SedSum(lines, plan[..|plan| - 1]) + |Tokens(SedRange(lines, c.start, c.end))|
  }

  /** The tokens on the lines 1 * cs, 2 * cs, ..., (k - 1) * cs. */
  function BoundaryTokens(lines: seq<string>, cs: int, k: nat): nat
  {
    if k <= 1 then 0 else BoundaryTokens(lines, cs, k - 1) + LineTokenCount(lines, (k - 1) * cs)
  }

  /** The smaller of a and b. */
  function Min(a: int, b: int): int
  {
    if a < b then a else b
  }

  lemma SedChunkTokens(lines: seq<string>, a: int, b: int)
    requires 1 <= a <= b
    ensures |Tokens(SedRange(lines, a, b))|
         == LineTokenCount(lines, a) + |Tokens(lines[Min(a, |lines|)..Min(b, |lines|)])|
  {
    if a <= |lines| {
      SliceCons(lines, a - 1, Min(b, |lines|));
      TokensAppend([lines[a - 1]], lines[a..Min(b, |lines|)]);
      TokensOne(lines[a - 1]);
    }
  }

  lemma SedSumStep(lines: seq<string>, cs: int, k: nat)
    requires k >= 1
    ensures SedSum(lines, Chunks(cs, k + 1))
         == SedSum(lines, Chunks(cs, k)) + |Tokens(SedRange(lines, k * cs, (k + 1) * cs))|
  {
    ChunksSnoc(cs, k);
    var plan := Chunks(cs, k + 1);
    assert plan[..k] == Chunks(cs, k);
    assert plan[k] == Chunk(k * cs, (k + 1) * cs);
  }

  lemma PrefixTokens(lines: seq<string>, a: int, b: int)
    requires 0 <= a <= b
    ensures |Tokens(lines[..Min(b, |lines|)])|
         == |Tokens(lines[..Min(a, |lines|)])| + |Tokens(lines[Min(a, |lines|)..Min(b, |lines|)])|
  {
    var x, y := Min(a, |lines|), Min(b, |lines|);
    PrefixJoin(lines, x, y);
    TokensAppend(lines[..x], lines[x..y]);
  }

  lemma {:induction false} SedSumPrefix(lines: seq<string>, cs: int, k: nat)
    requires cs >= 1 && k >= 1
    ensures SedSum(lines, Chunks(cs, k))
         == |Tokens(lines[..Min(k * cs, |lines|)])| + BoundaryTokens(lines, cs, k)
  {
    if k == 1 {
      var plan := Chunks(cs, 1);
      assert plan[..0] == [] && plan[0] == Chunk(1, cs);
      if |lines| > 0 {
        SliceFromStart(lines, Min(cs, |lines|));
      }
    } else {
      var a, b := (k - 1) * cs, k * cs;
      assert b == a + cs;
      MulMono(0, k - 1, cs);
      assert 0 <= a;
      var prev := SedSum(lines, Chunks(cs, k - 1));
      SedSumPrefix(lines, cs, k - 1);
      assert prev == |Tokens(lines[..Min(a, |lines|)])| + BoundaryTokens(lines, cs, k - 1);
      SedSumStep(lines, cs, k - 1);
      assert SedSum(lines, Chunks(cs, k)) == prev + |Tokens(SedRange(lines, a, b))|;
      MulMono(1, k - 1, cs);
      SedChunkTokens(lines, a, b);
      PrefixTokens(lines, a, b);
      assert BoundaryTokens(lines, cs, k) == BoundaryTokens(lines, cs, k - 1) + LineTokenCount(lines, a);
    }
  }

  lemma {:induction false} SedSumTinyChunks(lines: seq<string>, k: nat)
    requires k >= 1
    ensures SedSum(lines, Chunks(0, k)) == LineTokenCount(lines, 1)
  {
    if k == 1 {
      var plan := Chunks(0, 1);
      assert plan[..0] == [] && plan[0] == Chunk(1, 0);
      if |lines| > 0 {
        assert SedRange(lines, 1, 0) == [lines[0]];
        TokensOne(lines[0]);
      }
    } else {
      SedSumStep(lines, 0, k - 1);
      SedSumTinyChunks(lines, k - 1);
    }
  }

  /** Chunked total counting reads the lines 1 .. n * chunk_size, and since
      each sed range includes its end line, every boundary line
      i * chunk_size (0 < i < n) is counted twice. When the file has fewer
      bytes than workers (chunk_size 0) only `sed -n 1,0p` prints anything:
      the first line. */
  lemma TotalChunksCountBoundariesTwice(lines: seq<string>, size: nat, n: int)
    requires n > 0
    ensures var cs := size / n;
      && (cs >= 1 ==> SedSum(lines, Plan(size, n))
                      == |Tokens(lines[..Min(n * cs, |lines|)])| + BoundaryTokens(lines, cs, n))
      && (cs == 0 ==> SedSum(lines, Plan(size, n)) == LineTokenCount(lines, 1))
  {
    var cs := size / n;
    if cs >= 1 {
      SedSumPrefix(lines, cs, n);
    } else {
      SedSumTinyChunks(lines, n);
    }
  }

  // ---- o_words: the token positions split()[start_line:end_line] ----

  /** Where a Python slice bound i lands in a sequence of length len. */
  function SliceBound(i: int, len: nat): (r: nat)
    ensures r <= len
  {
    if i < 0 then (if i + len < 0 then 0 else i + len)
    else if i > len then len
    else i
  }

  /** Python's ws[a:b], with its clamping and negative indices. */
  function PySlice(ws: seq<string>, a: int, b: int): seq<string>
  {
    var lo, hi := SliceBound(a, |ws|), SliceBound(b, |ws|);
    if hi <= lo then [] else ws[lo..hi]
  }

  /** Slices with non-negative bounds a <= b <= c put together give the
      joint slice. */
  lemma PySliceJoin(ws: seq<string>, a: int, b: int, c: int)
    requires 0 <= a <= b <= c
    ensures PySlice(ws, a, c) == PySlice(ws, a, b) + PySlice(ws, b, c)
  {
    var lo, mid, hi := SliceBound(a, |ws|), SliceBound(b, |ws|), SliceBound(c, |ws|);
    if lo < hi {
      assert ws[lo..hi] == ws[lo..mid] + ws[mid..hi];
    }
  }

  /** The tokens an o_words worker counts, line after line: positions
      a .. b-1 of every line's split. */
  function SliceTokens(lines: seq<string>, a: int, b: int): seq<string>
  {
    if lines == [] then []
    else SliceTokens(lines[..|lines| - 1], a, b) + PySlice(Split(lines[|lines| - 1]), a, b)
  }

  /** The tokens counted by all the o_words workers of a plan, chunk after chunk. */
  function ChunkedSliceTokens(lines: seq<string>, plan: seq<Chunk>): seq<string>
  {
    if plan == [] then []
    else
      var c := plan[|plan| - 1];
      ChunkedSliceTokens(lines, plan[..|plan| - 1]) + SliceTokens(lines, c.start, c.end)
  }

  lemma {:induction false} SliceTokensJoin(lines: seq<string>, a: int, b: int, c: int)
    requires 0 <= a <= b <= c
    ensures multiset(SliceTokens(lines, a, c)) == multiset(SliceTokens(lines, a, b)) + multiset(SliceTokens(lines, b, c))
  {
    if lines != [] {
      SliceTokensJoin(lines[..|lines| - 1], a, b, c);
      PySliceJoin(Split(lines[|lines| - 1]), a, b, c);
    }
  }

  lemma {:induction false} SliceTokensNone(lines: seq<string>, a: int, b: int)
    requires 0 <= b <= a
    ensures SliceTokens(lines, a, b) == []
  {
    if lines != [] {
      SliceTokensNone(lines[..|lines| - 1], a, b);
    }
  }

  lemma {:induction false} ChunkedSliceCovers(lines: seq<string>, cs: int, k: nat)
    requires cs >= 1 && k >= 1
    ensures multiset(ChunkedSliceTokens(lines, Chunks(cs, k))) == multiset(SliceTokens(lines, 1, k * cs))
  {
    if k == 1 {
      assert Chunks(cs, 1)[..0] == [];
    } else {
      ChunksSnoc(cs, k - 1);
      ChunkedSliceCovers(lines, cs, k - 1);
      MulMono(1, k - 1, cs);
      SliceTokensJoin(lines, 1, (k - 1) * cs, k * cs);
    }
  }

  lemma {:induction false} ChunkedSliceEmptyChunks(lines: seq<string>, k: nat)
    ensures ChunkedSliceTokens(lines, Chunks(0, k)) == []
  {
    if k > 0 {
      ChunksSnoc(0, k - 1);
      ChunkedSliceEmptyChunks(lines, k - 1);
      var c := ChunkAt(k - 1, 0);
      SliceTokensNone(lines, c.start, c.end);
    }
  }

  /** Across all the o_words workers of a plan, every line contributes the
      tokens at positions 1 .. n * chunk_size - 1 of its split, each once:
      the first token of a line (position 0) is never counted, nor any
      token from position n * chunk_size on. */
  lemma OccurrenceChunksCoverPositions(lines: seq<string>, size: nat, n: int)
    requires n > 0
    ensures multiset(ChunkedSliceTokens(lines, Plan(size, n)))
         == multiset(SliceTokens(lines, 1, n * (size / n)))
  {
    var cs := size / n;
    PlanChunks(size, n);
    if cs == 0 {
      ChunkedSliceEmptyChunks(lines, n);
      assert n * cs == 0;
      SliceTokensNone(lines, 1, 0);
    } else {
      ChunkedSliceCovers(lines, cs, n);
    }
  }
}
