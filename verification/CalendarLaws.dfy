/** Folding and escaping lose nothing. */
module CalendarLaws {
  import opened Calendar

  // ----- physical lines -----

  ghost predicate Physical(line: Text) {
    Width(line) <= 73
  }

  /** Every physical line is whole scalars within the limit, and all but the first start with a space. */
  lemma {:induction false} LinesFit(text: Text)
    ensures forall i :: 0 <= i < |Lines(text)| ==> Physical(Lines(text)[i])
    ensures forall i :: 0 < i < |Lines(text)| ==> Lines(text)[i] != [] && Lines(text)[i][0] == 32
    ensures text != [] ==> Lines(text)[0] != [] && Lines(text)[0][0] == text[0]
    decreases |text|
  {
    hide EncodeAll, Fit;
    if Width(text) > LIMIT {
      FitIsWide(text);
      FitIsLongest(text, LIMIT);
      LinesStep(text);
      LinesFit([SPACE] + text[Fit(text, LIMIT)..]);
    }
  }

  /** No line is shorter than it has to be: the next scalar would not have fitted. */
  lemma LinesAreFull(text: Text)
    requires Width(text) > LIMIT
    ensures
      var first := Lines(text)[0];
      |first| < |text| && first == text[..|first|] && Width(first + [text[|first|]]) > 73
  {
    FitIsWide(text);
    FitIsLongest(text, LIMIT);
    LinesStep(text);
    var k := Fit(text, LIMIT);
    assert text[..k + 1] == text[..k] + [text[k]];
  }

  // ----- unfolding -----

  /** What a reader does: delete every line break followed by a space. */
  function Unfolded(text: Text): Text {
    if text == [] then []
    else if |text| >= 3 && text[0] == 13 && text[1] == 10 && text[2] == 32 then Unfolded(text[3..])
    else [text[0]] + Unfolded(text[1..])
  }

  lemma UnfoldsStep(text: Text)
    requires text != [] && (|text| > 1 ==> text[1] != LF)
    ensures Unfolded(text) == [text[0]] + Unfolded(text[1..])
  {
  }

  lemma UnfoldsBreak(rest: Text)
    ensures Unfolded([CR, LF, SPACE] + rest) == Unfolded(rest)
  {
    assert ([CR, LF, SPACE] + rest)[3..] == rest;
  }

  lemma {:induction false} UnfoldsAcross(line: Text, rest: Text)
    requires LF !in line
    ensures Unfolded(line + [CR, LF, SPACE] + rest) == line + Unfolded(rest)
  {
    hide Unfolded;
    var all := line + [CR, LF, SPACE] + rest;
    if line == [] {
      UnfoldsBreak(rest);
      assert all == [CR, LF, SPACE] + rest;
    } else {
      UnfoldsAcross(line[1..], rest);
      assert all[1..] == line[1..] + [CR, LF, SPACE] + rest;
      assert all[1] == if |line| > 1 then line[1] else CR;
      UnfoldsStep(all);
      assert line == [line[0]] + line[1..];
    }
  }

  lemma {:induction false} UnfoldsPlain(line: Text)
    requires LF !in line
    ensures Unfolded(line) == line
  {
    if line != [] {
      hide Unfolded;
      UnfoldsPlain(line[1..]);
      UnfoldsStep(line);
    }
  }

  lemma JoinedStarts(lines: seq<Text>)
    requires lines != [] && lines[0] != []
    ensures Joined(lines) != [] && Joined(lines)[0] == lines[0][0]
  {
  }

  lemma UnfoldsFirst(text: Text)
    requires text != [] && text[0] == SPACE
    ensures Unfolded(text) == [SPACE] + Unfolded(text[1..])
  {
  }

  /** For every line without a line feed, unfolding gives back exactly what was folded. */
  lemma {:induction false} FoldRoundTrip(line: Text)
    requires LF !in line
    ensures Unfolded(Joined(Lines(line))) == line
    decreases |line|
  {
    hide EncodeAll, Fit;
    if Width(line) <= LIMIT {
      UnfoldsPlain(line);
    } else {
      FitIsWide(line);
      LinesStep(line);
      var k := Fit(line, LIMIT);
      var rest := [SPACE] + line[k..];
      FoldRoundTrip(rest);
      LinesFit(rest);
      JoinedStarts(Lines(rest));
      JoinedCons(line[..k], Lines(rest));
      hide *;
      UnfoldsTail(line, k, Joined(Lines(rest)));
    }
  }

  lemma UnfoldsTail(line: Text, k: nat, tail: Text)
    requires k <= |line| && LF !in line
    requires tail != [] && tail[0] == SPACE && Unfolded(tail) == [SPACE] + line[k..]
    ensures Unfolded(line[..k] + [CR, LF] + tail) == line
  {
    UnfoldsFirst(tail);
    hide Unfolded;
    assert line[..k] + [CR, LF] + tail == line[..k] + [CR, LF, SPACE] + tail[1..];
    UnfoldsAcross(line[..k], tail[1..]);
    assert Unfolded(tail)[1..] == Unfolded(tail[1..]);
    assert Unfolded(tail)[1..] == line[k..];
  }

  lemma JoinedCons(first: Text, lines: seq<Text>)
    requires lines != []
    ensures Joined([first] + lines) == first + [CR, LF] + Joined(lines)
  {
    assert ([first] + lines)[1..] == lines;
  }

  // ----- escaping -----

  /** A backslash goes before a backslash, a semicolon and a comma; a line feed becomes a backslash and an n. */
  function EscapedOne(c: Scalar): Text {
    if c == 92 then [92, 92]
    else if c == 59 then [92, 59]
    else if c == 44 then [92, 44]
    else if c == 10 then [92, 110]
    else [c]
  }

  function EscapedEach(text: Text): Text {
    if text == [] then [] else EscapedOne(text[0]) + EscapedEach(text[1..])
  }

  lemma {:induction false} ReplacedAppends(a: Text, b: Text, c: Scalar, put: Text)
    ensures Replaced(a + b, c, put) == Replaced(a, c, put) + Replaced(b, c, put)
  {
    if a == [] {
      assert a + b == b;
    } else {
      assert (a + b)[1..] == a[1..] + b;
      ReplacedAppends(a[1..], b, c, put);
    }
  }

  lemma ReplacedShort(a: Scalar, b: Scalar, c: Scalar, put: Text)
    ensures Replaced([a], c, put) == if a == c then put else [a]
    ensures Replaced([a, b], c, put) == (if a == c then put else [a]) + (if b == c then put else [b])
    ensures a != c && b != c ==> Replaced([a, b], c, put) == [a, b]
  {
    assert [a][1..] == [] && [a, b][1..] == [b];
    assert Replaced([b], c, put) == if b == c then put else [b];
  }

  lemma EscapedAppends(a: Text, b: Text)
    ensures Escaped(a + b) == Escaped(a) + Escaped(b)
  {
    hide Replaced;
    var a1, b1 := Replaced(a, BACKSLASH, [BACKSLASH, BACKSLASH]), Replaced(b, BACKSLASH, [BACKSLASH, BACKSLASH]);
    var a2, b2 := Replaced(a1, SEMICOLON, [BACKSLASH, SEMICOLON]), Replaced(b1, SEMICOLON, [BACKSLASH, SEMICOLON]);
    var a3, b3 := Replaced(a2, COMMA, [BACKSLASH, COMMA]), Replaced(b2, COMMA, [BACKSLASH, COMMA]);
    ReplacedAppends(a, b, BACKSLASH, [BACKSLASH, BACKSLASH]);
    ReplacedAppends(a1, b1, SEMICOLON, [BACKSLASH, SEMICOLON]);
    ReplacedAppends(a2, b2, COMMA, [BACKSLASH, COMMA]);
    ReplacedAppends(a3, b3, LF, [BACKSLASH, SMALL_N]);
  }

  lemma EscapedSingle(c: Scalar)
    ensures Escaped([c]) == EscapedOne(c)
  {
    hide Replaced;
    ReplacedShort(c, c, BACKSLASH, [BACKSLASH, BACKSLASH]);
    ReplacedShort(c, c, SEMICOLON, [BACKSLASH, SEMICOLON]);
    ReplacedShort(c, c, COMMA, [BACKSLASH, COMMA]);
    ReplacedShort(c, c, LF, [BACKSLASH, SMALL_N]);
    if c == SEMICOLON {
      ReplacedShort(BACKSLASH, SEMICOLON, COMMA, [BACKSLASH, COMMA]);
      ReplacedShort(BACKSLASH, SEMICOLON, LF, [BACKSLASH, SMALL_N]);
    } else if c == COMMA {
      ReplacedShort(BACKSLASH, COMMA, LF, [BACKSLASH, SMALL_N]);
    }
  }

  /** The chained replacements never touch what an earlier one put in: together they are one character map. */
  lemma {:induction false} EscapingIsOneMap(text: Text)
    ensures Escaped(text) == EscapedEach(text)
  {
    if text != [] {
      hide Replaced, Escaped, EscapedOne;
      EscapingIsOneMap(text[1..]);
      EscapedSingle(text[0]);
      EscapedAppends([text[0]], text[1..]);
      assert text == [text[0]] + text[1..];
    }
  }

  function Unescaped(text: Text): Text {
    if text == [] then []
    else if text[0] == BACKSLASH && |text| >= 2 then
      [if text[1] == SMALL_N then LF else text[1]] + Unescaped(text[2..])
    else [text[0]] + Unescaped(text[1..])
  }

  lemma UnescapesOne(c: Scalar, rest: Text)
    ensures Unescaped(EscapedOne(c) + rest) == [c] + Unescaped(rest)
  {
    var all := EscapedOne(c) + rest;
    if |EscapedOne(c)| == 2 {
      assert all[2..] == rest;
    } else {
      assert all[1..] == rest;
    }
  }

  /** Escaping can be undone, so no two texts escape alike; and an escaped text fits on one content line. */
  lemma {:induction false} EscapeRoundTrip(text: Text)
    ensures Unescaped(Escaped(text)) == text
    ensures LF !in Escaped(text)
  {
    EscapingIsOneMap(text);
    if text != [] {
      EscapeRoundTrip(text[1..]);
      EscapingIsOneMap(text[1..]);
      UnescapesOne(text[0], EscapedEach(text[1..]));
      hide Unescaped, Escaped;
      assert text == [text[0]] + text[1..];
    }
  }

  /** A calendar client reads back any text at all from the property line it was put on. */
  lemma TextSurvives(name: Text, text: Text)
    requires LF !in name
    ensures
      var read := Unfolded(Joined(Lines(name + Escaped(text))));
      |name| <= |read| && read[..|name|] == name && Unescaped(read[|name|..]) == text
  {
    hide Escaped, Unescaped, Unfolded, Joined, Lines;
    EscapeRoundTrip(text);
    FoldRoundTrip(name + Escaped(text));
  }
}
