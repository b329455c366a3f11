/** The `collections.Counter` the occurrence workers fill with
    `Counter.update(words)`: a count per word, with the words kept in the
    order they were first added, which is the order `items()` lists them. */
module Tally {
  import opened Seqs

  /** keys: the words in insertion order; counts: how often each was added. */
  datatype Counter = Counter(keys: seq<string>, counts: map<string, nat>)

  /** One printed line of a table: `<word>: <count> time` or `... times`. */
  datatype Entry = Entry(word: string, count: nat, unit: string)

  const Empty: Counter := Counter([], map[])

  /** Every listed word has a count. */
  predicate WellFormed(c: Counter)
  {
    forall i :: 0 <= i < |c.keys| ==> c.keys[i] in c.counts
  }

  /** Adds one occurrence of w; a word seen for the first time goes last. */
  function Add(c: Counter, w: string): (r: Counter)
    ensures WellFormed(c) ==> WellFormed(r)
  {
    if w in c.counts then Counter(c.keys, c.counts[w := c.counts[w] + 1])
    else Counter(c.keys + [w], c.counts[w := 1])
  }

  /** Counter.update(ws): the words of ws added one after another. */
  function Update(c: Counter, ws: seq<string>): (r: Counter)
    ensures WellFormed(c) ==> WellFormed(r)
  {
    if ws == [] then c else Add(Update(c, ws[..|ws| - 1]), ws[|ws| - 1])
  }

  /** The counter holding exactly the words of ws. */
  function Count(ws: seq<string>): (r: Counter)
    ensures WellFormed(r)
  {
    Update(Empty, ws)
  }

  /** Position of the first occurrence of w in ws (|ws| when absent). */
  function FirstIndex(ws: seq<string>, w: string): nat
  {
    if ws == [] then 0
    else if ws[0] == w then 0
    else 1 + FirstIndex(ws[1..], w)
  }

  /** The word printed after a count. */
  function Unit(count: nat): string
  {
    if count == 1 then "time" else "times"
  }

  /** The lines `for word, occurences in c.items()` prints, in that order. */
  function Entries(keys: seq<string>, counts: map<string, nat>): seq<Entry>
    requires forall i :: 0 <= i < |keys| ==> keys[i] in counts
  {
    if keys == [] then []
    else
      var w := keys[|keys| - 1];
      Entries(keys[..|keys| - 1], counts) + [Entry(w, counts[w], Unit(counts[w]))]
  }

  /** The sum of the counts of a table. */
  function TotalOf(es: seq<Entry>): nat
  {
    if es == [] then 0 else TotalOf(es[..|es| - 1]) + es[|es| - 1].count
  }

  /** One more line adds its count. */
  lemma TotalOfSnoc(es: seq<Entry>, e: Entry)
    ensures TotalOf(es + [e]) == TotalOf(es) + e.count
  {
    SnocParts(es, e);
  }

  /** The table printed for a counter. */
  function Table(c: Counter): seq<Entry>
    requires WellFormed(c)
  {
    Entries(c.keys, c.counts)
  }

  /** c is the counter of the words ws: its keys are the distinct words of ws
      in order of first occurrence, and each count is the number of
      occurrences. */
  ghost predicate Describes(c: Counter, ws: seq<string>)
  {
    && (forall i, j :: 0 <= i < j < |c.keys| ==> c.keys[i] != c.keys[j])
    && WellFormed(c)
    && (forall w :: w in c.counts ==> w in c.keys)
    && (forall w :: w in c.counts <==> w in ws)
    && (forall w :: w in c.counts ==> c.counts[w] == multiset(ws)[w])
    && (forall i, j :: 0 <= i < j < |c.keys| ==> FirstIndex(ws, c.keys[i]) < FirstIndex(ws, c.keys[j]))
  }

  lemma {:induction false} FirstIndexBounds(ws: seq<string>, w: string)
    ensures w in ws <==> FirstIndex(ws, w) < |ws|
    ensures w !in ws ==> FirstIndex(ws, w) == |ws|
  {
    if ws != [] && ws[0] != w {
      FirstIndexBounds(ws[1..], w);
      assert w in ws <==> w in ws[1..];
    }
  }

  lemma {:induction false} FirstIndexAppend(ws: seq<string>, x: string, w: string)
    requires w in ws
    ensures FirstIndex(ws + [x], w) == FirstIndex(ws, w)
  {
    if ws[0] != w {
      AppendRest(ws, [x]);
      FirstIndexAppend(ws[1..], x, w);
    }
  }

  lemma {:induction false} FirstIndexAppendNew(ws: seq<string>, x: string)
    requires x !in ws
    ensures FirstIndex(ws + [x], x) == |ws|
  {
    if ws != [] {
      AppendRest(ws, [x]);
      FirstIndexAppendNew(ws[1..], x);
    }
  }

  /** Adding keeps the keys distinct, each with a count, and no count without its key. */
  lemma AddKeys(c: Counter, ws: seq<string>, x: string)
    requires Describes(c, ws)
    ensures var c' := Add(c, x);
      && (forall i, j :: 0 <= i < j < |c'.keys| ==> c'.keys[i] != c'.keys[j])
      && WellFormed(c')
      && (forall w :: w in c'.counts ==> w in c'.keys)
  {
    if x !in c.counts {
      assert x !in c.keys;
    }
  }

  /** After adding x the counter holds exactly the words of ws + [x], with
      their numbers of occurrences. */
  lemma AddCounts(c: Counter, ws: seq<string>, x: string)
    requires Describes(c, ws)
    ensures var c' := Add(c, x);
      && (forall w :: w in c'.counts <==> w in ws + [x])
      && (forall w :: w in c'.counts ==> c'.counts[w] == multiset(ws + [x])[w])
  {
    assert multiset(ws + [x]) == multiset(ws) + multiset{x};
  }

  /** Adding keeps the keys in order of first occurrence. */
  lemma AddOrder(c: Counter, ws: seq<string>, x: string)
    requires Describes(c, ws)
    ensures var c' := Add(c, x);
      forall i, j :: 0 <= i < j < |c'.keys| ==> FirstIndex(ws + [x], c'.keys[i]) < FirstIndex(ws + [x], c'.keys[j])
  {
    var ws' := ws + [x];
    var c' := Add(c, x);
    forall w | w in ws
      ensures FirstIndex(ws', w) == FirstIndex(ws, w) < |ws|
    {
      FirstIndexAppend(ws, x, w);
      FirstIndexBounds(ws, w);
    }
    if x !in c.counts {
      FirstIndexAppendNew(ws, x);
      forall i, j | 0 <= i < j < |c'.keys|
        ensures FirstIndex(ws', c'.keys[i]) < FirstIndex(ws', c'.keys[j])
      {
        assert c'.keys[i] == c.keys[i] && c.keys[i] in ws;
        if j < |c.keys| {
          assert c'.keys[j] == c.keys[j] && c.keys[j] in ws;
        }
      }
    }
  }

  lemma AddDescribes(c: Counter, ws: seq<string>, x: string)
    requires Describes(c, ws)
    ensures Describes(Add(c, x), ws + [x])
  {
    AddKeys(c, ws, x);
    AddCounts(c, ws, x);
    AddOrder(c, ws, x);
  }

  /** Counter(ws) describes ws: it holds each distinct word of ws once, in
      order of first occurrence, with its number of occurrences. */
  lemma {:induction false} CountDescribes(ws: seq<string>)
    ensures Describes(Count(ws), ws)
  {
    if ws != [] {
      var front := ws[..|ws| - 1];
      CountDescribes(front);
      AddDescribes(Count(front), front, ws[|ws| - 1]);
      FrontLast(ws);
    }
  }

  /** Updating in two steps is updating with both sequences: filling a
      counter line by line counts the tokens of all the lines. */
  lemma {:induction false} UpdateAppend(c: Counter, a: seq<string>, b: seq<string>)
    ensures Update(c, a + b) == Update(Update(c, a), b)
    decreases |b|
  {
    if b == [] {
      AppendNil(a);
    } else {
      AppendFront(a, b);
      UpdateAppend(c, a, b[..|b| - 1]);
    }
  }

  /** The sum of the counts of the listed keys. */
  function SumOf(keys: seq<string>, counts: map<string, nat>): int
    requires forall i :: 0 <= i < |keys| ==> keys[i] in counts
  {
    if keys == [] then 0 else SumOf(keys[..|keys| - 1], counts) + counts[keys[|keys| - 1]]
  }

  /** The counts printed in a table add up to the sum of the counts. */
  lemma {:induction false} EntriesTotal(keys: seq<string>, counts: map<string, nat>)
    requires forall i :: 0 <= i < |keys| ==> keys[i] in counts
    ensures TotalOf(Entries(keys, counts)) == SumOf(keys, counts)
  {
    if keys != [] {
      var front, last := keys[..|keys| - 1], keys[|keys| - 1];
      EntriesTotal(front, counts);
      TotalOfSnoc(Entries(front, counts), Entry(last, counts[last], Unit(counts[last])));
    }
  }

  lemma SumSnoc(keys: seq<string>, counts: map<string, nat>, x: string)
    requires forall i :: 0 <= i < |keys| ==> keys[i] in counts
    requires x in counts
    ensures SumOf(keys + [x], counts) == SumOf(keys, counts) + counts[x]
  {
    SnocParts(keys, x);
  }

  lemma {:induction false} SumIgnoresOtherKey(keys: seq<string>, counts: map<string, nat>, x: string, v: nat)
    requires forall i :: 0 <= i < |keys| ==> keys[i] in counts
    requires x !in keys
    ensures SumOf(keys, counts[x := v]) == SumOf(keys, counts)
  {
    if keys != [] {
      SumIgnoresOtherKey(keys[..|keys| - 1], counts, x, v);
    }
  }

  lemma {:induction false} SumBump(keys: seq<string>, counts: map<string, nat>, x: string)
    requires forall i :: 0 <= i < |keys| ==> keys[i] in counts
    requires forall i, j :: 0 <= i < j < |keys| ==> keys[i] != keys[j]
    requires x in keys
    ensures SumOf(keys, counts[x := counts[x] + 1]) == SumOf(keys, counts) + 1
  {
    var front, last := keys[..|keys| - 1], keys[|keys| - 1];
    if last == x {
      assert x !in front;
      SumIgnoresOtherKey(front, counts, x, counts[x] + 1);
    } else {
      assert x in front;
      SumBump(front, counts, x);
    }
  }

  /** One more occurrence of a listed word raises the table's total by one. */
  lemma TotalBump(keys: seq<string>, counts: map<string, nat>, x: string)
    requires forall i :: 0 <= i < |keys| ==> keys[i] in counts
    requires forall i, j :: 0 <= i < j < |keys| ==> keys[i] != keys[j]
    requires x in keys
    ensures TotalOf(Entries(keys, counts[x := counts[x] + 1])) == TotalOf(Entries(keys, counts)) + 1
  {
    EntriesTotal(keys, counts);
    EntriesTotal(keys, counts[x := counts[x] + 1]);
    SumBump(keys, counts, x);
  }

  /** A new word listed last with count 1 raises the table's total by one. */
  lemma TotalNew(keys: seq<string>, counts: map<string, nat>, x: string)
    requires forall i :: 0 <= i < |keys| ==> keys[i] in counts
    requires x !in keys
    ensures TotalOf(Entries(keys + [x], counts[x := 1])) == TotalOf(Entries(keys, counts)) + 1
  {
    EntriesTotal(keys, counts);
    EntriesTotal(keys + [x], counts[x := 1]);
    SumIgnoresOtherKey(keys, counts, x, 1);
    SumSnoc(keys, counts[x := 1], x);
  }

  /** Adding a word to a counter with distinct keys raises the table's total by one. */
  lemma TotalAdd(c: Counter, x: string)
    requires WellFormed(c)
    requires forall i, j :: 0 <= i < j < |c.keys| ==> c.keys[i] != c.keys[j]
    requires forall w :: w in c.counts ==> w in c.keys
    ensures TotalOf(Table(Add(c, x))) == TotalOf(Table(c)) + 1
  {
    if x in c.counts {
      TotalBump(c.keys, c.counts, x);
    } else {
      assert x !in c.keys;
      TotalNew(c.keys, c.counts, x);
    }
  }

  /** The counts of the table of ws add up to the number of words. */
  lemma {:induction false} CountTotal(ws: seq<string>)
    ensures TotalOf(Table(Count(ws))) == |ws|
  {
    if ws != [] {
      var front := ws[..|ws| - 1];
      CountDescribes(front);
      CountTotal(front);
      TotalAdd(Count(front), ws[|ws| - 1]);
    }
  }

  lemma {:induction false} EntriesAt(keys: seq<string>, counts: map<string, nat>)
    requires forall i :: 0 <= i < |keys| ==> keys[i] in counts
    ensures |Entries(keys, counts)| == |keys|
    ensures forall i :: 0 <= i < |keys| ==>
      Entries(keys, counts)[i] == Entry(keys[i], counts[keys[i]], Unit(counts[keys[i]]))
  {
    if keys != [] {
      EntriesAt(keys[..|keys| - 1], counts);
    }
  }

  /** The table printed for the words ws: Counter() then update(ws). */
  function OccurrenceTable(ws: seq<string>): seq<Entry>
  {
    Table(Count(ws))
  }

  /** Each line of the occurrence table of ws gives its word's number of
      occurrences in ws, and says "time" when that number is 1 and "times"
      otherwise. */
  lemma TableEntryCounts(ws: seq<string>, i: nat)
    requires i < |OccurrenceTable(ws)|
    ensures OccurrenceTable(ws)[i].count == multiset(ws)[OccurrenceTable(ws)[i].word] >= 1
    ensures OccurrenceTable(ws)[i].unit == (if OccurrenceTable(ws)[i].count == 1 then "time" else "times")
  {
    var c := Count(ws);
    CountDescribes(ws);
    EntriesAt(c.keys, c.counts);
    assert OccurrenceTable(ws)[i] == Entry(c.keys[i], c.counts[c.keys[i]], Unit(c.counts[c.keys[i]]));
    assert c.keys[i] in ws;
  }

  /** The occurrence table lists distinct words, in the order in which they
      first occur in ws. */
  lemma TableFirstSeenOrder(ws: seq<string>, i: nat, j: nat)
    requires i < j < |OccurrenceTable(ws)|
    ensures OccurrenceTable(ws)[i].word != OccurrenceTable(ws)[j].word
    ensures FirstIndex(ws, OccurrenceTable(ws)[i].word) < FirstIndex(ws, OccurrenceTable(ws)[j].word)
  {
    var c := Count(ws);
    CountDescribes(ws);
    EntriesAt(c.keys, c.counts);
    assert OccurrenceTable(ws)[i].word == c.keys[i];
    assert OccurrenceTable(ws)[j].word == c.keys[j];
  }

  /** Every word of ws, and no other, has a line in the occurrence table. */
  lemma TableListsEveryWord(ws: seq<string>, w: string)
    ensures w in ws <==> exists i :: 0 <= i < |OccurrenceTable(ws)| && OccurrenceTable(ws)[i].word == w
  {
    var c := Count(ws);
    CountDescribes(ws);
    EntriesAt(c.keys, c.counts);
    if w in ws {
      assert w in c.keys;
      var i :| 0 <= i < |c.keys| && c.keys[i] == w;
      assert OccurrenceTable(ws)[i].word == w;
    } else {
      forall i | 0 <= i < |OccurrenceTable(ws)|
        ensures OccurrenceTable(ws)[i].word != w
      {
        assert OccurrenceTable(ws)[i].word == c.keys[i];
      }
    }
  }
}
