/** Whitespace tokenisation as done by Python's `str.split()` with no
    arguments, and the token aggregates the word-count workers compute over
    the lines of a file. */
module Text {
  import opened Seqs

  /** A snapshot of one input file: the path as given on the command line,
      its size in bytes (what os.path.getsize reports) and its lines in
      reading order. */
  datatype TextFile = TextFile(path: string, size: nat, lines: seq<string>)

  /** The characters for which Python's str.isspace() holds; they are the
      separators of str.split(). */
  predicate IsSpace(c: char)
  {
    || c == ' '
    || ('\t' <= c <= '\r')
    || ('\U{1C}' <= c <= '\U{1F}')
    || c == '\U{85}' || c == '\U{A0}' || c == '\U{1680}'
    || ('\U{2000}' <= c <= '\U{200A}')
    || c == '\U{2028}' || c == '\U{2029}' || c == '\U{202F}'
    || c == '\U{205F}' || c == '\U{3000}'
  }

  /** A token of str.split(): non-empty and free of whitespace. */
  predicate IsWord(w: string)
  {
    |w| > 0 && forall i :: 0 <= i < |w| ==> !IsSpace(w[i])
  }

  /** Length of the run of non-whitespace characters that starts s. */
  function WordLength(s: string): (k: nat)
    ensures k <= |s|
  {
    if s == [] || IsSpace(s[0]) then 0 else 1 + WordLength(s[1..])
  }

  /** WordLength(s) is the length of the longest whitespace-free prefix of s. */
  lemma {:induction false} WordLengthRun(s: string)
    ensures forall i :: 0 <= i < WordLength(s) ==> !IsSpace(s[i])
    ensures WordLength(s) < |s| ==> IsSpace(s[WordLength(s)])
  {
    if s != [] && !IsSpace(s[0]) {
      WordLengthRun(s[1..]);
      assert forall i :: 1 <= i < |s| ==> s[i] == s[1..][i - 1];
    }
  }

  /** line.split(): the maximal runs of non-whitespace characters, in order. */
  function Split(s: string): seq<string>
    decreases |s|
  {
    if s == [] then []
    else if IsSpace(s[0]) then Split(s[1..])
    else
      var k := WordLength(s);
      [s[..k]] + Split(s[k..])
  }

  /** Every token of line.split() is a word: non-empty, without whitespace. */
  lemma {:induction false} SplitWords(s: string)
    ensures forall i :: 0 <= i < |Split(s)| ==> IsWord(Split(s)[i])
    decreases |s|
  {
    if s != [] {
      if IsSpace(s[0]) {
        SplitWords(s[1..]);
      } else {
        var k := WordLength(s);
        WordLengthRun(s);
        SplitWords(s[k..]);
        var ws := [s[..k]] + Split(s[k..]);
        assert forall i :: 1 <= i < |ws| ==> ws[i] == Split(s[k..])[i - 1];
      }
    }
  }

  /** The words of ws separated by single spaces (" ".join(ws)). */
  function Join(ws: seq<string>): string
  {
    if ws == [] then ""
    else if |ws| == 1 then ws[0]
    else ws[0] + " " + Join(ws[1..])
  }

  /** The characters of s that are not whitespace, in order. */
  function NonSpace(s: string): string
  {
    if s == [] then [] else (if IsSpace(s[0]) then [] else [s[0]]) + NonSpace(s[1..])
  }

  /** The words of ws written one after another ("".join(ws)). */
  function Concat(ws: seq<string>): string
  {
    if ws == [] then [] else ws[0] + Concat(ws[1..])
  }

  lemma {:induction false} WordLengthOf(w: string, rest: string)
    requires forall i :: 0 <= i < |w| ==> !IsSpace(w[i])
    requires rest == [] || IsSpace(rest[0])
    ensures WordLength(w + rest) == |w|
  {
    if w != [] {
      assert (w + rest)[1..] == w[1..] + rest;
      WordLengthOf(w[1..], rest);
    } else {
      assert w + rest == rest;
    }
  }

  /** Splitting words joined by single spaces gives the words back. */
  lemma {:induction false} SplitJoin(ws: seq<string>)
    requires forall i :: 0 <= i < |ws| ==> IsWord(ws[i])
    ensures Split(Join(ws)) == ws
  {
    if ws == [] {
    } else if |ws| == 1 {
      var w := ws[0];
      WordLengthOf(w, "");
      assert w + "" == w;
      assert w[..|w|] == w && w[|w|..] == [];
    } else {
      var w, rest := ws[0], Join(ws[1..]);
      var s := w + " " + rest;
      assert s == w + (" " + rest);
      WordLengthOf(w, " " + rest);
      assert s[..|w|] == w;
      assert s[|w|..] == " " + rest;
      assert (" " + rest)[1..] == rest;
      SplitJoin(ws[1..]);
    }
  }

  lemma {:induction false} NonSpacePrefix(s: string, k: nat)
    requires k <= |s|
    requires forall i :: 0 <= i < k ==> !IsSpace(s[i])
    ensures NonSpace(s) == s[..k] + NonSpace(s[k..])
  {
    if k == 0 {
      NilAppend(NonSpace(s));
    } else {
      NonSpacePrefix(s[1..], k - 1);
      assert s[1..][..k - 1] == s[1..k] && s[1..][k - 1..] == s[k..];
      AppendAssoc([s[0]], s[1..k], NonSpace(s[k..]));
      assert s[..k] == [s[0]] + s[1..k];
    }
  }

  /** Splitting loses no character but whitespace: the tokens, written one
      after another, are the non-whitespace characters of the line in order. */
  lemma {:induction false} SplitKeepsNonSpace(s: string)
    ensures Concat(Split(s)) == NonSpace(s)
    decreases |s|
  {
    if s == [] {
    } else if IsSpace(s[0]) {
      SplitKeepsNonSpace(s[1..]);
      NilAppend(NonSpace(s[1..]));
    } else {
      var k := WordLength(s);
      WordLengthRun(s);
      ConsParts(s[..k], Split(s[k..]));
      SplitKeepsNonSpace(s[k..]);
      NonSpacePrefix(s, k);
    }
  }

  /** A whitespace character that ends the run of non-whitespace at the
      start of a + t also ends the run at the start of a. */
  lemma {:induction false} WordLengthBeforeSpace(a: string, t: string)
    requires t != [] && IsSpace(t[0])
    ensures WordLength(a + t) == WordLength(a)
  {
    if a == [] {
      NilAppend(t);
    } else {
      AppendRest(a, t);
      if !IsSpace(a[0]) {
        WordLengthBeforeSpace(a[1..], t);
      }
    }
  }

  /** The whitespace character t[0] separates: the tokens of a + t are
      those of a, then those of t after it. */
  lemma {:induction false} SplitBeforeSpace(a: string, t: string)
    requires t != [] && IsSpace(t[0])
    ensures Split(a + t) == Split(a) + Split(t[1..])
    decreases |a|
  {
    if a == [] {
      NilAppend(t);
      NilAppend(Split(t[1..]));
    } else if IsSpace(a[0]) {
      AppendRest(a, t);
      SplitBeforeSpace(a[1..], t);
    } else {
      AppendRest(a, t);
      var j := WordLength(a);
      WordLengthBeforeSpace(a, t);
      AppendSlices(a, t, j);
      SplitBeforeSpace(a[j..], t);
      AppendAssoc([a[..j]], Split(a[j..]), Split(t[1..]));
    }
  }

  /** Whitespace separates tokens: whatever surrounds a whitespace
      character c, the tokens of a + [c] + b are those of a, then those of b. */
  lemma SplitAtSpace(a: string, c: char, b: string)
    requires IsSpace(c)
    ensures Split(a + [c] + b) == Split(a) + Split(b)
  {
    AppendAssoc(a, [c], b);
    ConsParts(c, b);
    SplitBeforeSpace(a, [c] + b);
  }

  /** A line has no tokens exactly when it is all whitespace. */
  lemma {:induction false} SplitEmpty(s: string)
    ensures Split(s) == [] <==> forall i :: 0 <= i < |s| ==> IsSpace(s[i])
    decreases |s|
  {
    if s != [] {
      if IsSpace(s[0]) {
        SplitEmpty(s[1..]);
        assert forall i :: 1 <= i < |s| ==> s[i] == s[1..][i - 1];
      }
    }
  }

  /** The tokens of a sequence of lines, in reading order: what a loop
      `for line in f: ... line.split()` sees. */
  function Tokens(lines: seq<string>): seq<string>
  {
    if lines == [] then []
    else Tokens(lines[..|lines| - 1]) + Split(lines[|lines| - 1])
  }

  /** Every token read from the lines is a word. */
  lemma {:induction false} TokensWords(lines: seq<string>)
    ensures forall i :: 0 <= i < |Tokens(lines)| ==> IsWord(Tokens(lines)[i])
  {
    if lines != [] {
      var front, last := lines[..|lines| - 1], lines[|lines| - 1];
      TokensWords(front);
      SplitWords(last);
      var ts := Tokens(front) + Split(last);
      assert forall i :: |Tokens(front)| <= i < |ts| ==> ts[i] == Split(last)[i - |Tokens(front)|];
    }
  }

  /** The elements of a sequence, as a set. */
  function SetOf(ws: seq<string>): set<string>
  {
    set w | w in ws
  }

  /** The distinct tokens of a sequence of lines. */
  function TokenSet(lines: seq<string>): set<string>
  {
    SetOf(Tokens(lines))
  }

  lemma TokensOne(line: string)
    ensures Tokens([line]) == Split(line)
  {
    assert [line][..0] == [];
  }

  /** Reading one more line appends its tokens. */
  lemma TokensSnoc(lines: seq<string>, line: string)
    ensures Tokens(lines + [line]) == Tokens(lines) + Split(line)
  {
    SnocParts(lines, line);
  }

  lemma {:induction false} TokensAppend(a: seq<string>, b: seq<string>)
    ensures Tokens(a + b) == Tokens(a) + Tokens(b)
    decreases |b|
  {
    if b == [] {
      assert a + b == a;
    } else {
      var front, last := b[..|b| - 1], b[|b| - 1];
      FrontLast(b);
      AppendAssoc(a, front, [last]);
      TokensAppend(a, front);
      TokensSnoc(a + front, last);
      TokensSnoc(front, last);
      AppendAssoc(Tokens(a), Tokens(front), Split(last));
    }
  }

  /** Token counts add up over consecutive runs of lines (and so over files). */
  lemma TokenCountAdditive(a: seq<string>, b: seq<string>)
    ensures |Tokens(a + b)| == |Tokens(a)| + |Tokens(b)|
  {
    TokensAppend(a, b);
  }

  /** The distinct tokens of consecutive runs of lines are the union of
      each run's distinct tokens. */
  lemma TokenSetAppend(a: seq<string>, b: seq<string>)
    ensures TokenSet(a + b) == TokenSet(a) + TokenSet(b)
  {
    TokensAppend(a, b);
  }

  /** A token of any line is among the distinct tokens. */
  lemma {:induction false} TokenSetHas(lines: seq<string>, i: int, w: string)
    requires 0 <= i < |lines| && w in Split(lines[i])
    ensures w in TokenSet(lines)
  {
    var front, last := lines[..|lines| - 1], lines[|lines| - 1];
    FrontLast(lines);
    TokensSnoc(front, last);
    if i < |front| {
      assert front[i] == lines[i];
      TokenSetHas(front, i, w);
    }
  }

  /** Every distinct token comes from some line. */
  lemma {:induction false} TokenSetWitness(lines: seq<string>, w: string) returns (i: int)
    requires w in TokenSet(lines)
    ensures 0 <= i < |lines| && w in Split(lines[i])
  {
    var front, last := lines[..|lines| - 1], lines[|lines| - 1];
    FrontLast(lines);
    TokensSnoc(front, last);
    if w in Split(last) {
      i := |lines| - 1;
    } else {
      i := TokenSetWitness(front, w);
      assert front[i] == lines[i];
    }
  }

  /** A token is among the distinct tokens exactly when some line has it. */
  lemma TokenSetMembers(lines: seq<string>)
    ensures forall w :: w in TokenSet(lines) <==> exists i :: 0 <= i < |lines| && w in Split(lines[i])
  {
    forall w
      ensures w in TokenSet(lines) <==> exists i :: 0 <= i < |lines| && w in Split(lines[i])
    {
      if w in TokenSet(lines) {
        var i := TokenSetWitness(lines, w);
      }
      if exists i :: 0 <= i < |lines| && w in Split(lines[i]) {
        var i :| 0 <= i < |lines| && w in Split(lines[i]);
        TokenSetHas(lines, i, w);
      }
    }
  }

  lemma {:induction false} SetOfNoLarger(ws: seq<string>)
    ensures |SetOf(ws)| <= |ws|
  {
    if ws != [] {
      var front := ws[..|ws| - 1];
      SetOfNoLarger(front);
      assert SetOf(ws) == SetOf(front) + {ws[|ws| - 1]};
    }
  }

  /** A file never has more distinct tokens than tokens. */
  lemma DistinctNoMoreThanTotal(lines: seq<string>)
    ensures |TokenSet(lines)| <= |Tokens(lines)|
  {
    SetOfNoLarger(Tokens(lines));
  }
}
