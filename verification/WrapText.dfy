/** Greedy line wrapping in the godoc tool (tools/sync_godoc/main.go, wrapText).
    A char stands for one byte. */
module WrapText {

  predicate IsSpace(c: char) {
    c in {' ', '\t', '\n', '\r', 11 as char, 12 as char}
  }

  predicate IsWord(w: string) {
    w != "" && forall c :: c in w ==> !IsSpace(c)
  }

  predicate AreWords(ws: seq<string>) {
    forall w :: w in ws ==> IsWord(w)
  }

  /** Length of the longest prefix without white space. */
  function WordLength(s: string): (n: nat)
    ensures n <= |s| && forall i :: 0 <= i < n ==> !IsSpace(s[i])
    ensures n < |s| ==> IsSpace(s[n])
  {
    if s == "" || IsSpace(s[0]) then 0 else 1 + WordLength(s[1..])
  }

  /** The words of a text: its maximal runs without white space. */
  function Fields(s: string): (ws: seq<string>)
    ensures AreWords(ws)
    decreases |s|
  {
    if s == "" then []
    else if IsSpace(s[0]) then Fields(s[1..])
    else [s[..WordLength(s)]] + Fields(s[WordLength(s)..])
  }

  /** Words with single spaces between them. */
  function JoinWords(ws: seq<string>): string {
    if ws == [] then ""
    else if |ws| == 1 then ws[0]
    else JoinWords(ws[..|ws| - 1]) + " " + ws[|ws| - 1]
  }

  /** A list of lines, as words. */
  function Flatten(groups: seq<seq<string>>): seq<string> {
    if groups == [] then [] else groups[0] + Flatten(groups[1..])
  }

  function JoinAll(groups: seq<seq<string>>): (lines: seq<string>)
    ensures |lines| == |groups|
    ensures forall i :: 0 <= i < |groups| ==> lines[i] == JoinWords(groups[i])
  {
    seq(|groups|, i requires 0 <= i < |groups| => JoinWords(groups[i]))
  }

  predicate FitsOrSingle(group: seq<string>, width: int) {
    |group| == 1 || |JoinWords(group)| <= width
  }

  /** A division of words into lines: no line empty, every line within the
      width unless it is one long word. */
  predicate IsWrapping(groups: seq<seq<string>>, width: int) {
    forall i :: 0 <= i < |groups| ==> groups[i] != [] && FitsOrSingle(groups[i], width)
  }

  /** Greedy wrapping: the line being filled, and the words still to come. */
  function Greedy(current: seq<string>, rest: seq<string>, width: int): seq<seq<string>>
    decreases |rest|
  {
    if rest == [] then [current]
    else if |JoinWords(current)| + 1 + |rest[0]| > width then [current] + Greedy([rest[0]], rest[1..], width)
    else Greedy(current + [rest[0]], rest[1..], width)
  }

  function Wrapped(words: seq<string>, width: int): seq<seq<string>> {
    if words == [] then [] else Greedy([words[0]], words[1..], width)
  }

  lemma {:induction false} JoinSnoc(ws: seq<string>, w: string)
    requires ws != []
    ensures JoinWords(ws + [w]) == JoinWords(ws) + " " + w
  {
    assert (ws + [w])[..|ws|] == ws;
  }

  lemma {:induction false} JoinAppend(xs: seq<string>, ys: seq<string>)
    requires xs != [] && ys != []
    ensures JoinWords(xs + ys) == JoinWords(xs) + " " + JoinWords(ys)
  {
    var front, last := ys[..|ys| - 1], ys[|ys| - 1];
    if front == [] {
      assert ys == [last];
      JoinSnoc(xs, last);
    } else {
      assert xs + ys == (xs + front) + [last] && ys == front + [last];
      JoinSnoc(xs + front, last);
      JoinSnoc(front, last);
      JoinAppend(xs, front);
    }
  }

  lemma {:induction false} PartIsShorter(before: seq<string>, part: seq<string>, after: seq<string>)
    requires part != []
    ensures |JoinWords(part)| <= |JoinWords(before + part + after)|
  {
    if before == [] {
      assert before + part == part;
    } else {
      JoinAppend(before, part);
    }
    if after == [] {
      assert before + part + after == before + part;
    } else {
      JoinAppend(before + part, after);
    }
  }

  lemma {:induction false} FlattenCons(g: seq<string>, groups: seq<seq<string>>)
    ensures Flatten([g] + groups) == g + Flatten(groups)
  {
    assert ([g] + groups)[1..] == groups;
  }

  /** Greedy wrapping keeps the words and produces a legal division. */
  lemma {:induction false} GreedyIsWrapping(current: seq<string>, rest: seq<string>, width: int)
    requires current != [] && FitsOrSingle(current, width)
    ensures Flatten(Greedy(current, rest, width)) == current + rest
    ensures IsWrapping(Greedy(current, rest, width), width)
    decreases |rest|
  {
    if rest == [] {
    } else {
      hide JoinWords, Flatten;
      assert rest == [rest[0]] + rest[1..];
      if |JoinWords(current)| + 1 + |rest[0]| > width {
        GreedyIsWrapping([rest[0]], rest[1..], width);
      } else {
        JoinSnoc(current, rest[0]);
        GreedyIsWrapping(current + [rest[0]], rest[1..], width);
        assert (current + [rest[0]]) + rest[1..] == current + rest;
      }
    }
  }

  /** Greedy stays ahead: from the line it is filling, it needs no more lines
      than any division of the same words preceded by any others. */
  lemma {:induction false} GreedyStaysAhead(
    earlier: seq<string>, current: seq<string>, rest: seq<string>, width: int, other: seq<seq<string>>)
    requires current != [] && FitsOrSingle(current, width)
    requires IsWrapping(other, width) && Flatten(other) == earlier + current + rest
    ensures |Greedy(current, rest, width)| <= |other|
    decreases |rest|, |other|
  {
    assert other != [];
    var g, others := other[0], other[1..];
    if rest != [] {
      assert rest == [rest[0]] + rest[1..];
      if |JoinWords(current)| + 1 + |rest[0]| <= width {
        JoinSnoc(current, rest[0]);
        assert earlier + current + rest == earlier + (current + [rest[0]]) + rest[1..];
        GreedyStaysAhead(earlier, current + [rest[0]], rest[1..], width, other);
      } else {
        SplitFlatten(g, Flatten(others), earlier, current, rest);
        if |g| <= |earlier| {
          GreedyStaysAhead(earlier[|g|..], current, rest, width, others);
        } else if |g| <= |earlier| + |current| {
          var kept := current[|g| - |earlier|..];
          assert Flatten(others) == kept + [rest[0]] + rest[1..];
          GreedyStaysAhead(kept, [rest[0]], rest[1..], width, others);
        } else {
          JoinSnoc(current, rest[0]);
          var after := rest[1..|g| - |earlier| - |current|];
          assert g == earlier + (current + [rest[0]]) + after;
          PartIsShorter(earlier, current + [rest[0]], after);
        }
      }
    }
  }

  /** Where the first line of a division ends, and what it leaves. */
  lemma {:induction false} SplitFlatten(
    g: seq<string>, tail: seq<string>, earlier: seq<string>, current: seq<string>, rest: seq<string>)
    requires g + tail == earlier + current + rest && rest != []
    ensures |g| <= |earlier| ==> tail == earlier[|g|..] + current + rest
    ensures |earlier| < |g| <= |earlier| + |current| ==>
              tail == current[|g| - |earlier|..] + [rest[0]] + rest[1..]
    ensures |earlier| + |current| < |g| ==>
              g == earlier + (current + [rest[0]]) + rest[1..|g| - |earlier| - |current|]
  {
    var all := earlier + current + rest;
    assert tail == all[|g|..] && g == all[..|g|];
  }

  // ---------------------------------------------------------------------
  // Words and text
  // ---------------------------------------------------------------------

  lemma {:induction false} FieldsOfWord(w: string, s: string)
    requires IsWord(w) && (s == "" || IsSpace(s[0]))
    ensures Fields(w + s) == [w] + Fields(s)
  {
    WordLengthOf(w, s);
    assert (w + s)[..|w|] == w && (w + s)[|w|..] == s;
  }

  lemma {:induction false} WordLengthOf(w: string, s: string)
    requires (forall c :: c in w ==> !IsSpace(c)) && (s == "" || IsSpace(s[0]))
    ensures WordLength(w + s) == |w|
  {
    if w != "" {
      assert (w + s)[1..] == w[1..] + s;
      WordLengthOf(w[1..], s);
    } else {
      assert w + s == s;
    }
  }

  lemma {:induction false} FieldsSkipSpace(s: string)
    requires s != "" && IsSpace(s[0])
    ensures Fields(s) == Fields(s[1..])
  {
  }

  /** Splitting a line into words undoes joining them. */
  lemma {:induction false} FieldsOfJoin(ws: seq<string>, s: string)
    requires AreWords(ws) && (s == "" || IsSpace(s[0]))
    ensures Fields(JoinWords(ws) + s) == ws + Fields(s)
  {
    hide Fields;
    if ws == [] {
      assert "" + s == s;
    } else {
      var front, last := ws[..|ws| - 1], ws[|ws| - 1];
      assert ws == front + [last];
      FieldsOfWord(last, s);
      if front == [] {
        assert JoinWords(ws) == last;
      } else {
        var tail := " " + last + s;
        FieldsOfJoin(front, tail);
        FieldsSkipSpace(tail);
        assert tail[1..] == last + s;
        assert JoinWords(ws) + s == JoinWords(front) + tail;
      }
    }
  }

  /** Joining the words of a line never makes it longer. */
  lemma {:induction false} FieldsAreNoLonger(s: string)
    ensures |JoinWords(Fields(s))| <= |s|
    ensures s != "" && IsSpace(s[0]) && Fields(s) != [] ==> |JoinWords(Fields(s))| < |s|
    decreases |s|
  {
    if s != "" {
      if IsSpace(s[0]) {
        FieldsAreNoLonger(s[1..]);
      } else {
        var n := WordLength(s);
        FieldsAreNoLonger(s[n..]);
        var rest := Fields(s[n..]);
        if rest != [] {
          JoinAppend([s[..n]], rest);
        }
      }
    }
  }

  /** All words of a list of lines. */
  function WordsOf(lines: seq<string>): seq<string> {
    if lines == [] then [] else Fields(lines[0]) + WordsOf(lines[1..])
  }

  /** Lines within the width, except lines that are one long word. */
  predicate LinesFit(lines: seq<string>, width: int) {
    forall i :: 0 <= i < |lines| ==> |lines[i]| <= width || |Fields(lines[i])| == 1
  }

  /** The words of each line that has any. */
  function GroupsOf(lines: seq<string>): seq<seq<string>> {
    if lines == [] then []
    else (if Fields(lines[0]) == [] then [] else [Fields(lines[0])]) + GroupsOf(lines[1..])
  }

  lemma {:induction false} GroupsOfLines(lines: seq<string>, width: int)
    requires LinesFit(lines, width)
    ensures IsWrapping(GroupsOf(lines), width) && |GroupsOf(lines)| <= |lines|
    ensures Flatten(GroupsOf(lines)) == WordsOf(lines)
  {
    if lines != [] {
      hide Fields, JoinWords, AreWords;
      var words := Fields(lines[0]);
      assert forall i :: 0 <= i < |lines[1..]| ==> lines[1..][i] == lines[i + 1];
      GroupsOfLines(lines[1..], width);
      FieldsAreNoLonger(lines[0]);
      if words != [] {
        FlattenCons(words, GroupsOf(lines[1..]));
      } else {
        assert [] + GroupsOf(lines[1..]) == GroupsOf(lines[1..]);
      }
    }
  }

  lemma {:induction false} WordsOfJoined(groups: seq<seq<string>>)
    requires forall i :: 0 <= i < |groups| ==> AreWords(groups[i])
    ensures WordsOf(JoinAll(groups)) == Flatten(groups)
  {
    if groups != [] {
      hide JoinWords, AreWords;
      FieldsOfJoin(groups[0], "");
      assert Fields("") == [];
      hide Fields;
      assert JoinWords(groups[0]) + "" == JoinWords(groups[0]);
      assert JoinAll(groups)[1..] == JoinAll(groups[1..]);
      WordsOfJoined(groups[1..]);
    }
  }

  lemma {:induction false} FlattenedWords(groups: seq<seq<string>>)
    requires AreWords(Flatten(groups))
    ensures forall i :: 0 <= i < |groups| ==> AreWords(groups[i])
  {
    if groups != [] {
      assert forall w :: w in groups[0] ==> w in Flatten(groups);
      assert forall w :: w in Flatten(groups[1..]) ==> w in Flatten(groups);
      FlattenedWords(groups[1..]);
    }
  }

  /** The lines wrapText returns. */
  function WrapLines(text: string, width: int): seq<string> {
    JoinAll(Wrapped(Fields(text), width))
  }

  /** wrapText keeps the word sequence of the text, and every line fits unless
      it is a single word. */
  lemma {:induction false} WrapKeepsWords(text: string, width: int)
    ensures WordsOf(WrapLines(text, width)) == Fields(text)
    ensures LinesFit(WrapLines(text, width), width)
  {
    var words := Fields(text);
    if words != [] {
      var groups := Wrapped(words, width);
      assert words == [words[0]] + words[1..];
      GreedyIsWrapping([words[0]], words[1..], width);
      FlattenedWords(groups);
      WordsOfJoined(groups);
      forall i | 0 <= i < |groups|
        ensures |WrapLines(text, width)[i]| <= width || |Fields(WrapLines(text, width)[i])| == 1
      {
        FieldsOfJoin(groups[i], "");
        assert JoinWords(groups[i]) + "" == JoinWords(groups[i]);
      }
    }
  }

  lemma {:induction false} GreedyIsFull(current: seq<string>, rest: seq<string>, width: int, i: nat)
    requires current != []
    ensures var groups := Greedy(current, rest, width);
      && groups != [] && current <= groups[0]
      && (i + 1 < |groups| ==> groups[i + 1] != [] && |JoinWords(groups[i])| + 1 + |groups[i + 1][0]| > width)
    decreases |rest|
  {
    hide JoinWords;
    if rest != [] {
      if |JoinWords(current)| + 1 + |rest[0]| > width {
        GreedyIsFull([rest[0]], rest[1..], width, if i == 0 then 0 else i - 1);
      } else {
        GreedyIsFull(current + [rest[0]], rest[1..], width, i);
      }
    }
  }

  /** Each line is its words with single spaces between them, and the first word of
      the next line would not have fitted on it. */
  lemma {:induction false} WrapFillsLines(text: string, width: int, i: nat)
    requires i < |WrapLines(text, width)|
    ensures var lines := WrapLines(text, width);
      && lines[i] == JoinWords(Fields(lines[i]))
      && (i + 1 < |lines| ==>
            Fields(lines[i + 1]) != [] && |lines[i]| + 1 + |Fields(lines[i + 1])[0]| > width)
  {
    var words := Fields(text);
    assert words == [words[0]] + words[1..];
    var groups := Wrapped(words, width);
    GreedyIsWrapping([words[0]], words[1..], width);
    GreedyIsFull([words[0]], words[1..], width, i);
    FlattenedWords(groups);
    LineIsJoined(groups[i]);
    if i + 1 < |groups| {
      LineIsJoined(groups[i + 1]);
    }
  }

  lemma {:induction false} LineIsJoined(group: seq<string>)
    requires AreWords(group)
    ensures Fields(JoinWords(group)) == group
  {
    FieldsOfJoin(group, "");
    assert JoinWords(group) + "" == JoinWords(group) && Fields("") == [];
  }

  /** Words are what lies between the six white-space characters. */
  lemma {:induction false} FieldsMeaning(x: string, c: char, y: string)
    ensures Fields("") == []
    ensures x != "" && (forall i :: 0 <= i < |x| ==> x[i] !in {' ', '\t', '\n', '\r', 11 as char, 12 as char}) ==>
              Fields(x) == [x]
    ensures c in {' ', '\t', '\n', '\r', 11 as char, 12 as char} ==> Fields(x + [c] + y) == Fields(x) + Fields(y)
    decreases |x|
  {
    if IsWord(x) {
      FieldsOfWord(x, "");
      assert x + "" == x;
    }
    if IsSpace(c) {
      FieldsAround(x, c, y);
    }
  }

  lemma {:induction false} FieldsAround(x: string, c: char, y: string)
    requires IsSpace(c)
    ensures Fields(x + [c] + y) == Fields(x) + Fields(y)
    decreases |x|
  {
    assert Fields("") == [];
    hide Fields, WordLength;
    if x == "" {
      FieldsSkipSpace([c] + y);
      assert x + [c] + y == [c] + y && ([c] + y)[1..] == y;
    } else if IsSpace(x[0]) {
      FieldsAround(x[1..], c, y);
      FieldsSkipSpace(x);
      FieldsSkipSpace(x + [c] + y);
      assert (x + [c] + y)[1..] == x[1..] + [c] + y;
    } else {
      var n := WordLength(x);
      var w, rest := x[..n], x[n..];
      FieldsAround(rest, c, y);
      assert x == w + rest;
      WordInFront(w, rest, c, y);
    }
  }

  lemma {:induction false} WordInFront(w: string, rest: string, c: char, y: string)
    requires IsWord(w) && (rest == "" || IsSpace(rest[0])) && IsSpace(c)
    requires Fields(rest + [c] + y) == Fields(rest) + Fields(y)
    ensures Fields(w + rest + [c] + y) == Fields(w + rest) + Fields(y)
  {
    hide Fields;
    FieldsOfWord(w, rest);
    FieldsOfWord(w, rest + [c] + y);
    assert w + rest + [c] + y == w + (rest + [c] + y);
    assert [w] + (Fields(rest) + Fields(y)) == [w] + Fields(rest) + Fields(y);
  }

  /** The characters of a text that are not white space. */
  function Letters(s: string): string {
    if s == "" then ""
    else (if s[0] in {' ', '\t', '\n', '\r', 11 as char, 12 as char} then "" else [s[0]]) + Letters(s[1..])
  }

  function LettersOf(lines: seq<string>): string {
    if lines == [] then "" else Letters(lines[0]) + LettersOf(lines[1..])
  }

  function Concat(ws: seq<string>): string {
    if ws == [] then "" else ws[0] + Concat(ws[1..])
  }

  lemma {:induction false} LettersAreWords(s: string)
    ensures Letters(s) == Concat(Fields(s))
    decreases |s|
  {
    if s != "" {
      if IsSpace(s[0]) {
        LettersAreWords(s[1..]);
      } else {
        var n := WordLength(s);
        LettersAreWords(s[n..]);
        LettersOfWord(s[..n], s[n..]);
        assert s == s[..n] + s[n..];
        assert Fields(s)[1..] == Fields(s[n..]);
      }
    }
  }

  lemma {:induction false} LettersOfWord(w: string, rest: string)
    requires forall c :: c in w ==> !IsSpace(c)
    ensures Letters(w + rest) == w + Letters(rest)
  {
    if w == "" {
      assert w + rest == rest;
    } else {
      LettersOfWord(w[1..], rest);
      assert !IsSpace(w[0]) && (w + rest)[0] == w[0] && (w + rest)[1..] == w[1..] + rest;
      assert w == [w[0]] + w[1..];
    }
  }

  lemma {:induction false} ConcatAppend(xs: seq<string>, ys: seq<string>)
    ensures Concat(xs + ys) == Concat(xs) + Concat(ys)
  {
    if xs == [] {
      assert xs + ys == ys;
    } else {
      ConcatAppend(xs[1..], ys);
      assert (xs + ys)[1..] == xs[1..] + ys;
    }
  }

  lemma {:induction false} LettersOfLines(lines: seq<string>)
    ensures LettersOf(lines) == Concat(WordsOf(lines))
  {
    if lines != [] {
      LettersOfLines(lines[1..]);
      LettersAreWords(lines[0]);
      ConcatAppend(Fields(lines[0]), WordsOf(lines[1..]));
    }
  }

  /** The lines hold the characters of the text, in order, apart from white space. */
  lemma {:induction false} WrapKeepsLetters(text: string, width: int)
    ensures LettersOf(WrapLines(text, width)) == Letters(text)
  {
    WrapKeepsWords(text, width);
    LettersOfLines(WrapLines(text, width));
    LettersAreWords(text);
  }

  /** Greedy wrapping is optimal: no list of lines with the same words, each
      within the width or a single word, is shorter. */
  lemma {:induction false} WrapIsOptimal(text: string, width: int, lines: seq<string>)
    requires WordsOf(lines) == Fields(text) && LinesFit(lines, width)
    ensures |WrapLines(text, width)| <= |lines|
  {
    var words := Fields(text);
    if words != [] {
      GroupsOfLines(lines, width);
      assert words == [] + [words[0]] + words[1..];
      GreedyStaysAhead([], [words[0]], words[1..], width, GroupsOf(lines));
    }
  }

  method Wrap(text: string, width: int) returns (lines: seq<string>)
    ensures lines == WrapLines(text, width)
  {
    var words := Fields(text);
    if |words| == 0 {
      return [];
    }
    lines := [];
    var current := words[0];
    ghost var group := [words[0]];
    ghost var whole := Wrapped(words, width);
    for i := 1 to |words|
      invariant group != [] && current == JoinWords(group)
      invariant |lines| <= |whole| && lines == JoinAll(whole)[..|lines|]
      invariant Greedy(group, words[i..], width) == whole[|lines|..]
    {
      assert words[i..][0] == words[i] && words[i..][1..] == words[i + 1..];
      if |current| + 1 + |words[i]| > width {
        assert whole[|lines|..] == [group] + Greedy([words[i]], words[i + 1..], width);
        assert whole[|lines|] == group;
        lines := lines + [current];
        current := words[i];
        group := [words[i]];
      } else {
        JoinSnoc(group, words[i]);
        current := current + " " + words[i];
        group := group + [words[i]];
      }
    }
    assert whole[|lines|..] == [group];
    lines := lines + [current];
  }
}
