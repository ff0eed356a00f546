/**
 * The word-wise string rewrite the pages use for display: split on a
 * separator, change the case of each word's first character and of the
 * rest, join with another separator. Scan is the same rewrite read one
 * character at a time, and the lemma RewriteIsScan ties the two together.
 */
module Words {
  import opened Text

  function MapChars(s: string, f: char -> char): (r: string)
    ensures |r| == |s| && forall i :: 0 <= i < |s| ==> r[i] == f(s[i])
  {
    seq(|s|, i requires 0 <= i < |s| => f(s[i]))
  }

  /** `word.charAt(0)` through `first`, `word.slice(1)` through `rest`. */
  function Recase(w: string, first: char -> char, rest: char -> char): string {
    if w == [] then [] else [first(w[0])] + MapChars(w[1..], rest)
  }

  function MapWords(ws: seq<string>, first: char -> char, rest: char -> char): (r: seq<string>)
    ensures |r| == |ws| && forall i :: 0 <= i < |ws| ==> r[i] == Recase(ws[i], first, rest)
  {
    seq(|ws|, i requires 0 <= i < |ws| => Recase(ws[i], first, rest))
  }

  /** `s.split(sep).map(recase).join(out)`. */
  function Rewrite(s: string, sep: char, out: char, first: char -> char, rest: char -> char): string {
    Join(MapWords(Split(s, sep), first, rest), out)
  }

  /** Position i of s begins a word: it is the first position (and a word is starting there) or follows a separator. */
  predicate WordStart(s: string, sep: char, atStart: bool, i: int)
    requires 0 <= i < |s|
  {
    (i == 0 && atStart) || (i > 0 && s[i - 1] == sep)
  }

  /**
   * The rewrite one character at a time: a separator becomes `out`, the
   * first character of a word goes through `first`, any other through
   * `rest`.
   */
  function Scan(s: string, sep: char, out: char, first: char -> char, rest: char -> char, atStart: bool): (r: string)
    ensures |r| == |s|
    ensures forall i :: 0 <= i < |s| ==>
      r[i] == (if s[i] == sep then out else if WordStart(s, sep, atStart, i) then first(s[i]) else rest(s[i]))
    decreases |s|
  {
    if s == [] then []
    else if s[0] == sep then [out] + Scan(s[1..], sep, out, first, rest, true)
    else [if atStart then first(s[0]) else rest(s[0])] + Scan(s[1..], sep, out, first, rest, false)
  }

  lemma JoinFront(w: string, ws: seq<string>, sep: char)
    ensures Join([w] + ws, sep) == w + (if ws == [] then [] else [sep] + Join(ws, sep))
  {
    if ws != [] {
      assert ([w] + ws)[1..] == ws;
    }
  }

  /** What the rewrite of s yields, and what it yields when the first word is not capitalised. */
  predicate RewritesAsScan(s: string, sep: char, out: char, first: char -> char, rest: char -> char) {
    var ws := Split(s, sep);
    Join(MapWords(ws, first, rest), out) == Scan(s, sep, out, first, rest, true) &&
    Join([MapChars(ws[0], rest)] + MapWords(ws[1..], first, rest), out) == Scan(s, sep, out, first, rest, false)
  }

  /** A leading separator starts an empty word and is written as `out`. */
  lemma SeparatorStep(s: string, sep: char, out: char, first: char -> char, rest: char -> char)
    requires s != [] && s[0] == sep
    requires RewritesAsScan(s[1..], sep, out, first, rest)
    ensures RewritesAsScan(s, sep, out, first, rest)
  {
    var ws, tail := Split(s, sep), Split(s[1..], sep);
    var mapped := MapWords(tail, first, rest);
    assert ws == [""] + tail && ws[1..] == tail;
    assert MapWords(ws, first, rest) == [""] + mapped;
    JoinFront("", mapped, out);
    assert MapChars(ws[0], rest) == "";
  }

  /** A leading letter joins the first word of the rest. */
  lemma LetterStep(s: string, sep: char, out: char, first: char -> char, rest: char -> char)
    requires s != [] && s[0] != sep
    requires RewritesAsScan(s[1..], sep, out, first, rest)
    ensures RewritesAsScan(s, sep, out, first, rest)
  {
    var ws, tail := Split(s, sep), Split(s[1..], sep);
    var w := [s[0]] + tail[0];
    assert ws == [w] + tail[1..] && ws[0] == w && ws[1..] == tail[1..];
    LetterJoins(s[0], tail, sep, out, first, rest, true);
    LetterJoins(s[0], tail, sep, out, first, rest, false);
    assert MapWords(ws, first, rest) == [Recase(w, first, rest)] + MapWords(tail[1..], first, rest);
  }

  /** Putting character c in front of the first word puts its image in front of the joined result. */
  lemma LetterJoins(c: char, tail: seq<string>, sep: char, out: char, first: char -> char, rest: char -> char, capital: bool)
    requires |tail| >= 1
    ensures var w := [c] + tail[0];
      var mapped := MapWords(tail[1..], first, rest);
      Join([if capital then Recase(w, first, rest) else MapChars(w, rest)] + mapped, out) ==
      [if capital then first(c) else rest(c)] + Join([MapChars(tail[0], rest)] + mapped, out)
  {
    var w := [c] + tail[0];
    var mapped := MapWords(tail[1..], first, rest);
    var x := if capital then first(c) else rest(c);
    var body := MapChars(tail[0], rest);
    var head := if capital then Recase(w, first, rest) else MapChars(w, rest);
    assert head == [x] + body by {
      assert w[0] == c && w[1..] == tail[0];
      if !capital {
        assert forall i :: 0 <= i < |w| ==> head[i] == ([x] + body)[i];
      }
    }
    var after := if mapped == [] then [] else [out] + Join(mapped, out);
    JoinFront(head, mapped, out);
    JoinFront(body, mapped, out);
    assert head + after == [x] + (body + after);
  }

  /** Splitting, recasing and joining is the character-by-character scan. */
  lemma {:induction false} RewriteIsScan(s: string, sep: char, out: char, first: char -> char, rest: char -> char)
    ensures RewritesAsScan(s, sep, out, first, rest)
    ensures Rewrite(s, sep, out, first, rest) == Scan(s, sep, out, first, rest, true)
    decreases |s|
  {
    if s != [] {
      RewriteIsScan(s[1..], sep, out, first, rest);
      if s[0] == sep {
        SeparatorStep(s, sep, out, first, rest);
      } else {
        LetterStep(s, sep, out, first, rest);
      }
    }
  }
}
