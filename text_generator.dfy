/**
 * The prompt generator of the typing test: a prompt of n words, each picked from
 * the word list by one draw of the random number generator, joined by single spaces.
 *
 * A draw is the value of Math.random(), a number in [0, 1); it is modelled as an
 * exact real, so the word index Math.floor(draw * words.length) is exact too.
 */
module TextGenerator {

  /** Every draw is a possible value of Math.random(). */
  predicate DrawsValid(draws: seq<real>)
  {
    forall i :: 0 <= i < |draws| ==> 0.0 <= draws[i] < 1.0
  }

  /** Math.floor(draw * n): the index that one draw picks from a list of n words. */
  function PickIndex(n: nat, draw: real): (k: int)
    requires n > 0 && 0.0 <= draw < 1.0
    ensures 0 <= k < n
  {
    var x := draw * n as real;
    ScaleBelow(draw, n as real);
    assert 0.0 <= x < n as real;
    x.Floor
  }

  /** A draw scales a positive bound m to a value in [0, m). */
  lemma ScaleBelow(draw: real, m: real)
    requires 0.0 <= draw < 1.0 && m > 0.0
    ensures 0.0 <= draw * m < m
  {
    var e := 1.0 - draw;
    assert e * m > 0.0;
    assert draw * m == m - e * m;
    assert draw * m >= 0.0 * m;
  }

  /** The words a sequence of draws picks, in order. */
  function Chosen(words: seq<string>, draws: seq<real>): (ws: seq<string>)
    requires |words| > 0 && DrawsValid(draws)
    ensures |ws| == |draws|
    ensures forall i :: 0 <= i < |ws| ==> ws[i] in words
  {
    seq(|draws|, i requires 0 <= i < |draws| => words[PickIndex(|words|, draws[i])])
  }

  /** The total number of characters of a list of words. */
  function TotalLength(ws: seq<string>): nat
  {
    if ws == [] then 0 else |ws[0]| + TotalLength(ws[1..])
  }

  /** Array.prototype.join(" "): the words with one space between neighbours. */
  function Join(ws: seq<string>): (s: string)
    ensures ws == [] ==> s == []
    ensures ws != [] ==> |s| == TotalLength(ws) + |ws| - 1
  {
    if ws == [] then []
    else if |ws| == 1 then ws[0]
    else ws[0] + " " + Join(ws[1..])
  }

  /** String.prototype.split(" "): the pieces of s between single spaces. */
  function Split(s: string): (parts: seq<string>)
    ensures |parts| > 0
    decreases |s|
  {
    if s == [] then [[]]
    else
      var rest := Split(s[1..]);
      if s[0] == ' ' then [[]] + rest else [[s[0]] + rest[0]] + rest[1..]
  }

  /** generateText(n) for the n draws it makes. */
  function GenerateText(words: seq<string>, draws: seq<real>): (s: string)
    requires |words| > 0 && DrawsValid(draws)
    ensures draws == [] ==> s == []
    ensures draws != [] ==> |s| >= |draws| - 1
  {
    Join(Chosen(words, draws))
  }

  /** A word with no space in it is one piece, also when more text follows after a space. */
  lemma {:induction false} SplitWord(w: string, t: string)
    requires ' ' !in w
    ensures Split(w) == [w]
    ensures Split(w + " " + t) == [w] + Split(t)
    decreases |w|
  {
    if w == [] {
      assert [] + " " + t == [' '] + t;
      assert (" " + t)[1..] == t;
    } else {
      SplitWord(w[1..], t);
      assert (w + " " + t)[1..] == w[1..] + " " + t;
      assert [w[0]] + w[1..] == w;
    }
  }

  /** Splitting a joined list of space-free words gives the words back. */
  lemma {:induction false} SplitJoin(ws: seq<string>)
    requires ws != []
    requires forall i :: 0 <= i < |ws| ==> ' ' !in ws[i]
    ensures Split(Join(ws)) == ws
    decreases |ws|
  {
    if |ws| == 1 {
      SplitWord(ws[0], []);
    } else {
      SplitJoin(ws[1..]);
      SplitWord(ws[0], Join(ws[1..]));
      assert [ws[0]] + ws[1..] == ws;
    }
  }

  /**
   * A generated prompt over a word list without spaces holds exactly the chosen words:
   * as many as there were draws, each from the list, in the order drawn.
   */
  lemma GeneratedWords(words: seq<string>, draws: seq<real>)
    requires |words| > 0 && DrawsValid(draws) && draws != []
    requires forall i :: 0 <= i < |words| ==> ' ' !in words[i]
    ensures Split(GenerateText(words, draws)) == Chosen(words, draws)
    ensures |Split(GenerateText(words, draws))| == |draws|
    ensures forall i :: 0 <= i < |draws| ==> Split(GenerateText(words, draws))[i] in words
  {
    var ws := Chosen(words, draws);
    forall i | 0 <= i < |ws| ensures ' ' !in ws[i] {
      var k := PickIndex(|words|, draws[i]);
      assert ws[i] == words[k];
    }
    SplitJoin(ws);
  }
}
