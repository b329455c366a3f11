/** How divide_between spreads whole files over workers: the effective
    number of workers, and the order in which the files are put on the
    shared queue that the workers drain. */
module Distributor {
  import opened Seqs
  import opened Text
  import opened Planner

  /** The multiprocessing.Queue of files, seen by workers that run one after
      another: a FIFO sequence that put appends to and get takes from. */
  class FileQueue {
    var items: seq<TextFile>

    constructor ()
      ensures items == []
    {
      items := [];
    }

    /** file_queue.put(f) */
    method Put(f: TextFile)
      modifies this
      ensures items == old(items) + [f]
    {
      items := items + [f];
    }

    /** file_queue.empty() */
    method IsEmpty() returns (b: bool)
      ensures b <==> items == []
    {
      b := items == [];
    }

    /** file_queue.get(); the workers call it only after seeing the queue
        non-empty (a get on an empty queue would block forever). */
    method Get() returns (f: TextFile)
      requires items != []
      modifies this
      ensures f == old(items)[0] && items == old(items)[1..]
    {
      f := items[0];
      items := items[1..];
    }
  }

  function Max(a: int, b: int): int
  {
    if a < b then b else a
  }

  /** The number of workers divide_between starts for n requested workers
      and fileCount files: one when one is asked for, otherwise the smaller
      of the request and the number of files. */
  function WorkerCount(n: int, fileCount: nat): (k: int)
    ensures n == 1 ==> k == 1
    ensures n != 1 ==> k == Min(n, fileCount)
    ensures k <= Max(1, fileCount)
    ensures n >= 1 && fileCount >= 1 ==> k >= 1
  {
    if n == 1 then 1
    else if n > fileCount then fileCount
    else n
  }

  /** Inserts f before the first file that is not larger: after every file
      larger than f, and before every file of f's size. */
  function Insert(f: TextFile, sorted: seq<TextFile>): seq<TextFile>
  {
    if sorted == [] || sorted[0].size <= f.size then [f] + sorted
    else [sorted[0]] + Insert(f, sorted[1..])
  }

  /** sorted(files, key=calc_size, reverse=True): largest first, a stable
      sort (files of equal size keep their order). */
  function SortBySize(files: seq<TextFile>): seq<TextFile>
  {
    if files == [] then [] else Insert(files[0], SortBySize(files[1..]))
  }

  /** No file is smaller than a file after it. */
  ghost predicate LargestFirst(files: seq<TextFile>)
  {
    forall i, j :: 0 <= i < j < |files| ==> files[i].size >= files[j].size
  }

  /** The files of one given size, in their order. */
  function OfSize(files: seq<TextFile>, s: nat): seq<TextFile>
  {
    if files == [] then []
    else (if files[0].size == s then [files[0]] else []) + OfSize(files[1..], s)
  }

  lemma {:induction false} InsertPermutes(f: TextFile, sorted: seq<TextFile>)
    ensures multiset(Insert(f, sorted)) == multiset([f] + sorted)
  {
    if sorted != [] && sorted[0].size > f.size {
      InsertPermutes(f, sorted[1..]);
      HeadRest(sorted);
    }
  }

  /** Inserting a file no larger than m among files no larger than m
      gives files no larger than m. */
  lemma {:induction false} InsertSizes(f: TextFile, sorted: seq<TextFile>, m: int)
    requires f.size <= m
    requires forall i :: 0 <= i < |sorted| ==> sorted[i].size <= m
    ensures forall i :: 0 <= i < |Insert(f, sorted)| ==> Insert(f, sorted)[i].size <= m
  {
    if sorted != [] && sorted[0].size > f.size {
      InsertSizes(f, sorted[1..], m);
      ConsParts(sorted[0], Insert(f, sorted[1..]));
    } else {
      ConsParts(f, sorted);
    }
  }

  lemma {:induction false} InsertKeepsOrder(f: TextFile, sorted: seq<TextFile>)
    requires LargestFirst(sorted)
    ensures LargestFirst(Insert(f, sorted))
    ensures |Insert(f, sorted)| == |sorted| + 1
  {
    if sorted != [] && sorted[0].size > f.size {
      var rest := Insert(f, sorted[1..]);
      InsertKeepsOrder(f, sorted[1..]);
      InsertSizes(f, sorted[1..], sorted[0].size);
      ConsParts(sorted[0], rest);
    } else {
      ConsParts(f, sorted);
    }
  }

  lemma {:induction false} InsertKeepsTies(f: TextFile, sorted: seq<TextFile>, s: nat)
    ensures OfSize(Insert(f, sorted), s) == (if f.size == s then [f] else []) + OfSize(sorted, s)
  {
    if sorted != [] && sorted[0].size > f.size {
      InsertKeepsTies(f, sorted[1..], s);
      ConsParts(sorted[0], Insert(f, sorted[1..]));
    } else {
      ConsParts(f, sorted);
    }
  }

  /** The sort only reorders the files. */
  lemma {:induction false} SortPermutes(files: seq<TextFile>)
    ensures multiset(SortBySize(files)) == multiset(files)
  {
    if files != [] {
      SortPermutes(files[1..]);
      InsertPermutes(files[0], SortBySize(files[1..]));
      HeadRest(files);
    }
  }

  /** The sort puts larger files first. */
  lemma {:induction false} SortLargestFirst(files: seq<TextFile>)
    ensures LargestFirst(SortBySize(files))
  {
    if files != [] {
      SortLargestFirst(files[1..]);
      InsertKeepsOrder(files[0], SortBySize(files[1..]));
    }
  }

  /** The sort is stable: the files of any one size keep their relative order. */
  lemma {:induction false} SortStable(files: seq<TextFile>, s: nat)
    ensures OfSize(SortBySize(files), s) == OfSize(files, s)
  {
    if files != [] {
      SortStable(files[1..], s);
      InsertKeepsTies(files[0], SortBySize(files[1..]), s);
    }
  }

  /** The order divide_between puts the files on the queue in, for k
      workers: largest first when there are more files than workers,
      otherwise as given. */
  function QueueOrder(files: seq<TextFile>, k: int): seq<TextFile>
  {
    if |files| > k then SortBySize(files) else files
  }

  /** The queue always holds each file exactly once; with more files than
      workers it holds them largest first, ties in input order. */
  lemma QueueOrderSpec(files: seq<TextFile>, k: int)
    ensures multiset(QueueOrder(files, k)) == multiset(files)
    ensures |files| > k ==> LargestFirst(QueueOrder(files, k))
    ensures forall s: nat :: OfSize(QueueOrder(files, k), s) == OfSize(files, s)
  {
    SortPermutes(files);
    SortLargestFirst(files);
    forall s: nat
      ensures OfSize(QueueOrder(files, k), s) == OfSize(files, s)
    {
      SortStable(files, s);
    }
  }
}
