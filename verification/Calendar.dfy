/** iCalendar text (services/calendar.py): escaping, and folding content lines by octets (section 3.1 of RFC 5545). */
module Calendar {
  import opened Wrappers

  /** Unicode scalar values, and the octets of UTF-8 (section 3 of RFC 3629). */
  type Scalar = x: int | 0 <= x < 0xD800 || 0xE000 <= x < 0x110000
  type Octet = x: int | 0 <= x < 0x100
  type Text = seq<Scalar>

  const LF: Scalar := 10
  const CR: Scalar := 13
  const SPACE: Scalar := 32
  const COMMA: Scalar := 44
  const SEMICOLON: Scalar := 59
  const BACKSLASH: Scalar := 92
  const SMALL_N: Scalar := 110

  /** Octets a physical line may hold. */
  const LIMIT := 73

  // ----- UTF-8 -----

  function Encode(c: Scalar): (octets: seq<Octet>)
    ensures 1 <= |octets| <= 4
    ensures !Continues(octets[0])
    ensures forall i :: 1 <= i < |octets| ==> Continues(octets[i])
  {
    if c < 0x80 then [c]
    else if c < 0x800 then [0xC0 + c / 0x40, 0x80 + c % 0x40]
    else if c < 0x10000 then [0xE0 + c / 0x1000, 0x80 + c / 0x40 % 0x40, 0x80 + c % 0x40]
    else [0xF0 + c / 0x40000, 0x80 + c / 0x1000 % 0x40, 0x80 + c / 0x40 % 0x40, 0x80 + c % 0x40]
  }

  /** The mask test of the program: the two top bits are 10. */
  predicate Continues(octet: Octet) {
    octet / 0x40 == 2
  }

  function EncodeAll(text: Text): seq<Octet> {
    if text == [] then [] else Encode(text[0]) + EncodeAll(text[1..])
  }

  /** The six payload bits of a continuation octet. */
  function Payload(octet: Octet): int { octet as int - 0x80 }

  /** The scalar that starts a sequence of octets: shortest form only, and no surrogates. */
  function DecodeOne(octets: seq<Octet>): Option<Scalar> {
    if octets == [] then None
    else
      var lead := octets[0] as int;
      if lead < 0x80 then Some(octets[0])
      else if 0xC0 <= lead < 0xE0 && |octets| >= 2 && Continues(octets[1]) then
        Shortest(Two(lead - 0xC0, Payload(octets[1])), 0x80)
      else if 0xE0 <= lead < 0xF0 && |octets| >= 3 && Continues(octets[1]) && Continues(octets[2]) then
        Shortest(Three(lead - 0xE0, Payload(octets[1]), Payload(octets[2])), 0x800)
      else if 0xF0 <= lead < 0xF8 && |octets| >= 4
              && Continues(octets[1]) && Continues(octets[2]) && Continues(octets[3]) then
        Shortest(Four(lead - 0xF0, Payload(octets[1]), Payload(octets[2]), Payload(octets[3])), 0x10000)
      else None
  }

  function Two(a: int, b: int): int { a * 0x40 + b }
  function Three(a: int, b: int, c: int): int { a * 0x1000 + b * 0x40 + c }
  function Four(a: int, b: int, c: int, d: int): int { a * 0x40000 + b * 0x1000 + c * 0x40 + d }

  function Shortest(value: int, least: int): Option<Scalar> {
    if least <= value && 0 <= value && (value < 0xD800 || 0xE000 <= value < 0x110000) then Some(value) else None
  }

  lemma Digits(x: int)
    requires 0 <= x
    ensures x == Two(x / 0x40, x % 0x40)
    ensures x == Three(x / 0x1000, x / 0x40 % 0x40, x % 0x40)
    ensures x == Four(x / 0x40000, x / 0x1000 % 0x40, x / 0x40 % 0x40, x % 0x40)
  {
    assert x / 0x1000 == x / 0x40 / 0x40;
    assert x / 0x40000 == x / 0x1000 / 0x40;
  }

  lemma TwoDigits(a: int, b: int)
    requires 0 <= a && 0 <= b < 0x40
    ensures Two(a, b) / 0x40 == a && Two(a, b) % 0x40 == b
  {
  }

  lemma ThreeDigits(a: int, b: int, c: int)
    requires 0 <= a && 0 <= b < 0x40 && 0 <= c < 0x40
    ensures var x := Three(a, b, c); x / 0x1000 == a && x / 0x40 % 0x40 == b && x % 0x40 == c
  {
    var x := Three(a, b, c);
    TwoDigits(Two(a, b), c);
    TwoDigits(a, b);
    assert x == Two(Two(a, b), c);
    assert x / 0x1000 == x / 0x40 / 0x40;
  }

  lemma FourDigits(a: int, b: int, c: int, d: int)
    requires 0 <= a && 0 <= b < 0x40 && 0 <= c < 0x40 && 0 <= d < 0x40
    ensures var x := Four(a, b, c, d);
            x / 0x40000 == a && x / 0x1000 % 0x40 == b && x / 0x40 % 0x40 == c && x % 0x40 == d
  {
    var x := Four(a, b, c, d);
    TwoDigits(Three(a, b, c), d);
    ThreeDigits(a, b, c);
    assert x == Two(Three(a, b, c), d);
    assert x / 0x1000 == x / 0x40 / 0x40;
    assert x / 0x40000 == x / 0x40 / 0x1000;
  }

  /** What decodes is what was encoded, octet for octet. */
  lemma DecodeOneIsSound(octets: seq<Octet>)
    requires DecodeOne(octets).Some?
    ensures
      var c := DecodeOne(octets).value;
      |Encode(c)| <= |octets| && octets[..|Encode(c)|] == Encode(c)
  {
    var lead := octets[0] as int;
    hide Two, Three, Four;
    if lead < 0x80 {
    } else if lead < 0xE0 {
      TwoDigits(lead - 0xC0, Payload(octets[1]));
    } else if lead < 0xF0 {
      ThreeDigits(lead - 0xE0, Payload(octets[1]), Payload(octets[2]));
    } else {
      FourDigits(lead - 0xF0, Payload(octets[1]), Payload(octets[2]), Payload(octets[3]));
    }
  }

  lemma DecodeOneFinds(c: Scalar, rest: seq<Octet>)
    ensures DecodeOne(Encode(c) + rest) == Some(c)
  {
    Digits(c as int);
    hide Two, Three, Four;
  }

  function Decode(octets: seq<Octet>): Option<Text> {
    if octets == [] then Some([])
    else
      match DecodeOne(octets)
      case None => None
      case Some(c) =>
        DecodeOneIsSound(octets);
        match Decode(octets[|Encode(c)|..])
        case None => None
        case Some(rest) => Some([c] + rest)
  }

  /** Decoding undoes encoding. */
  lemma {:induction false} DecodeEncodes(text: Text)
    ensures Decode(EncodeAll(text)) == Some(text)
  {
    if text != [] {
      DecodeOneFinds(text[0], EncodeAll(text[1..]));
      DecodeEncodes(text[1..]);
      var all := Encode(text[0]) + EncodeAll(text[1..]);
      assert all == EncodeAll(text) && all[|Encode(text[0])|..] == EncodeAll(text[1..]);
      assert text == [text[0]] + text[1..];
    }
  }

  /** Octets decode only if they are somebody's encoding. */
  lemma {:induction false} EncodeDecodes(octets: seq<Octet>)
    requires Decode(octets).Some?
    ensures EncodeAll(Decode(octets).value) == octets
  {
    if octets != [] {
      var c := DecodeOne(octets).value;
      DecodeOneIsSound(octets);
      EncodeDecodes(octets[|Encode(c)|..]);
      var rest := Decode(octets[|Encode(c)|..]).value;
      assert Decode(octets).value == [c] + rest && ([c] + rest)[1..] == rest;
      assert EncodeAll([c] + rest) == Encode(c) + EncodeAll(rest);
      assert octets == Encode(c) + octets[|Encode(c)|..];
    }
  }

  lemma {:induction false} EncodeAppends(a: Text, b: Text)
    ensures EncodeAll(a + b) == EncodeAll(a) + EncodeAll(b)
  {
    if a == [] {
      assert a + b == b;
    } else {
      assert (a + b)[1..] == a[1..] + b;
      EncodeAppends(a[1..], b);
    }
  }

  function Width(text: Text): nat {
    |EncodeAll(text)|
  }

  lemma {:induction false} WidthAtMost(text: Text)
    ensures |text| <= Width(text) <= 4 * |text|
  {
    if text != [] {
      WidthAtMost(text[1..]);
    }
  }

  // ----- where a line may be cut -----

  /** How many scalars fit into so many octets. */
  function Fit(text: Text, room: int): (k: nat)
    ensures k <= |text|
  {
    if text == [] || |Encode(text[0])| > room then 0 else 1 + Fit(text[1..], room - |Encode(text[0])|)
  }

  /** The fit is the longest: everything up to it fits, and one more scalar does not. */
  lemma {:induction false} FitIsLongest(text: Text, room: int)
    requires room >= 0
    ensures Width(text[..Fit(text, room)]) <= room
    ensures Fit(text, room) < |text| ==> Width(text[..Fit(text, room) + 1]) > room
  {
    if text != [] && |Encode(text[0])| <= room {
      var k := Fit(text[1..], room - |Encode(text[0])|);
      FitIsLongest(text[1..], room - |Encode(text[0])|);
      assert text[..k + 1][1..] == text[1..][..k];
      if k + 1 < |text| {
        assert text[..k + 2][1..] == text[1..][..k + 1];
      }
    } else if text != [] {
      assert text[..1][1..] == [];
    }
  }

  lemma FitIsWide(text: Text)
    requires Width(text) > LIMIT
    ensures 18 <= Fit(text, LIMIT) < |text|
  {
    FitIsLongest(text, LIMIT);
    WideEnough(text, Fit(text, LIMIT));
  }

  lemma WideEnough(text: Text, k: nat)
    requires k <= |text| && Width(text) > LIMIT && Width(text[..k]) <= LIMIT
    requires k < |text| ==> Width(text[..k + 1]) > LIMIT
    ensures 18 <= k < |text|
  {
    hide EncodeAll;
    assert text[..|text|] == text;
    assert k < |text|;
    WidthAtMost(text[..k + 1]);
  }

  /** The physical lines: as much as fits, then a line that starts with a space and the rest. */
  function Lines(text: Text): (lines: seq<Text>)
    ensures lines != []
    decreases |text|
  {
    if Width(text) <= LIMIT then [text]
    else
      FitIsWide(text);
      var k := Fit(text, LIMIT);
      [text[..k]] + Lines([SPACE] + text[k..])
  }

  function Joined(lines: seq<Text>): Text
    requires lines != []
  {
    if |lines| == 1 then lines[0] else lines[0] + [CR, LF] + Joined(lines[1..])
  }

  // ----- octets and scalars meet at the same places -----

  lemma CutBeyond(text: Text, cut: nat)
    requires 0 < cut < Width(text) && !Continues(EncodeAll(text)[cut])
    ensures
      var first := Encode(text[0]);
      && cut >= |first|
      && cut - |first| < Width(text[1..])
      && EncodeAll(text)[..cut] == first + EncodeAll(text[1..])[..cut - |first|]
      && EncodeAll(text)[cut..] == EncodeAll(text[1..])[cut - |first|..]
      && EncodeAll(text)[cut] == EncodeAll(text[1..])[cut - |first|]
  {
    hide Encode;
    var first, rest := Encode(text[0]), EncodeAll(text[1..]);
    assert EncodeAll(text) == first + rest;
    hide EncodeAll;
    assert forall i :: 1 <= i < |first| ==> Continues((first + rest)[i]);
  }

  /** An octet that does not continue a scalar starts one. */
  lemma {:induction false} CutIsBetween(text: Text, cut: nat) returns (k: nat)
    requires cut < Width(text) && !Continues(EncodeAll(text)[cut])
    ensures k < |text|
    ensures EncodeAll(text[..k]) == EncodeAll(text)[..cut] && EncodeAll(text[k..]) == EncodeAll(text)[cut..]
  {
    if cut == 0 {
      k := 0;
      assert text[..0] == [] && text[0..] == text;
    } else {
      hide Encode;
      CutBeyond(text, cut);
      var j := CutIsBetween(text[1..], cut - |Encode(text[0])|);
      k := j + 1;
      assert text[..k][1..] == text[1..][..j] && text[k..] == text[1..][j..];
    }
  }

  /** Where a scalar starts, its first octet does not continue anything. */
  lemma ScalarsStart(text: Text, k: nat)
    requires k < |text|
    ensures Width(text[..k]) < Width(text) && !Continues(EncodeAll(text)[Width(text[..k])])
    ensures EncodeAll(text)[..Width(text[..k])] == EncodeAll(text[..k])
    ensures EncodeAll(text)[Width(text[..k])..] == EncodeAll(text[k..])
  {
    assert text == text[..k] + text[k..];
    EncodeAppends(text[..k], text[k..]);
  }

  lemma {:induction false} WidthGrows(text: Text, j: nat, k: nat)
    requires j <= k <= |text|
    ensures Width(text[..j]) + (k - j) <= Width(text[..k])
  {
    assert text[..k] == text[..j] + text[j..k];
    EncodeAppends(text[..j], text[j..k]);
    WidthAtMost(text[j..k]);
  }

  /** Stepping back from the limit over continuing octets stops exactly where the longest fit ends. */
  lemma CutIsFit(text: Text, cut: nat)
    requires Width(text) > LIMIT && cut <= LIMIT
    requires !Continues(EncodeAll(text)[cut])
    requires forall i :: cut < i <= LIMIT ==> Continues(EncodeAll(text)[i])
    ensures
      var k := Fit(text, LIMIT);
      EncodeAll(text)[..cut] == EncodeAll(text[..k]) && EncodeAll(text)[cut..] == EncodeAll(text[k..])
  {
    var k := CutIsBetween(text, cut);
    var fit := Fit(text, LIMIT);
    FitIsWide(text);
    FitIsLongest(text, LIMIT);
    ScalarsStart(text, k);
    ScalarsStart(text, fit);
    assert Width(text[..k]) == cut;
    if k < fit {
      WidthGrows(text, k, fit);
    } else if k > fit {
      WidthGrows(text, fit + 1, k);
    }
  }

  /** Back from the limit to the octet that starts a scalar. */
  method FindCut(data: seq<Octet>, ghost text: Text) returns (cut: nat)
    requires data == EncodeAll(text) && |data| > LIMIT
    ensures
      var k := Fit(text, LIMIT);
      && 18 <= k < |text| && cut <= LIMIT
      && data[..cut] == EncodeAll(text[..k]) && data[cut..] == EncodeAll(text[k..])
  {
    assert text != [];
    hide EncodeAll, Fit;
    StartsScalar(text);
    cut := LIMIT;
    while cut > 0 && Continues(data[cut])
      invariant 0 <= cut <= LIMIT
      invariant forall i :: cut < i <= LIMIT ==> Continues(data[i])
    {
      cut := cut - 1;
    }
    FitIsWide(text);
    CutIsFit(text, cut);
  }

  method Fold(line: Text) returns (folded: Text)
    ensures folded == Joined(Lines(line))
  {
    hide EncodeAll, Decode, Fit, Joined;
    var out: seq<Text> := [];
    var data := EncodeAll(line);
    ghost var rest := line;
    while |data| > LIMIT
      invariant data == EncodeAll(rest)
      invariant out + Lines(rest) == Lines(line)
      decreases |rest|
    {
      var cut := FindCut(data, rest);
      ghost var k := Fit(rest, LIMIT);
      DecodeEncodes(rest[..k]);
      out := out + [Decode(data[..cut]).value];
      SpaceFirst(rest[k..]);
      data := [SPACE as int] + data[cut..];
      LinesStep(rest);
      rest := [SPACE] + rest[k..];
    }
    DecodeEncodes(rest);
    out := out + [Decode(data).value];
    folded := JoinLines(out);
  }

  lemma SpaceFirst(text: Text)
    ensures EncodeAll([SPACE] + text) == [SPACE as int] + EncodeAll(text)
  {
    assert ([SPACE] + text)[1..] == text;
  }

  lemma LinesStep(text: Text)
    requires Width(text) > LIMIT
    ensures Fit(text, LIMIT) <= |text|
    ensures Lines(text) == [text[..Fit(text, LIMIT)]] + Lines([SPACE] + text[Fit(text, LIMIT)..])
  {
  }

  method JoinLines(lines: seq<Text>) returns (joined: Text)
    requires lines != []
    ensures joined == Joined(lines)
  {
    joined := lines[0];
    for i := 1 to |lines|
      invariant joined == Joined(lines[..i])
    {
      JoinedSnoc(lines[..i], lines[i]);
      assert lines[..i + 1] == lines[..i] + [lines[i]];
      joined := joined + [CR, LF] + lines[i];
    }
    assert lines[..|lines|] == lines;
  }

  lemma StartsScalar(text: Text)
    requires text != []
    ensures Width(text) > 0 && !Continues(EncodeAll(text)[0])
  {
  }

  lemma {:induction false} JoinedSnoc(lines: seq<Text>, last: Text)
    requires lines != []
    ensures Joined(lines + [last]) == Joined(lines) + [CR, LF] + last
  {
    if |lines| > 1 {
      JoinedSnoc(lines[1..], last);
      assert (lines + [last])[1..] == lines[1..] + [last];
    } else {
      assert (lines + [last])[1..] == [last];
    }
  }

  // ----- escaping -----

  function Replaced(text: Text, c: Scalar, put: Text): Text {
    if text == [] then [] else (if text[0] == c then put else [text[0]]) + Replaced(text[1..], c, put)
  }

  /** One replacement after the other, backslashes first. */
  function Escaped(text: Text): Text {
    Replaced(Replaced(Replaced(Replaced(text,
      BACKSLASH, [BACKSLASH, BACKSLASH]),
      SEMICOLON, [BACKSLASH, SEMICOLON]),
      COMMA, [BACKSLASH, COMMA]),
      LF, [BACKSLASH, SMALL_N])
  }
}
