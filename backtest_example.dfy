/** The text form in which the backtest stores a price series: one line per entry, the
    instant text and the value text separated by a comma, each line ended by a newline;
    and the parser that reads it back with String.split.

    The field encodings (Instant.toString / Instant.parse and the double's text form /
    Double.parseDouble) are not modelled: they are a Codec of four functions. */
module BacktestExample {
  import opened Failures
  import opened TimeSeries
  import DS = DoubleSeries

  const Newline: char := '\n'
  const Comma: char := ','

  /** The field encodings. A parse function returns None where the Java parser throws. */
  datatype Codec = Codec(formatInstant: Instant -> string, parseInstant: string -> Option<Instant>,
                         formatDouble: real -> string, parseDouble: string -> Option<real>)

  /** One serialised entry: instant text, ",", value text, "\n". */
  function Line(e: Entry<real>, c: Codec): string
  {
    c.formatInstant(e.instant) + [Comma] + c.formatDouble(e.item) + [Newline]
  }

  /** The serialisation of a list of entries: their lines, in order. */
  function Serialized(es: seq<Entry<real>>, c: Codec): string
    decreases |es|
  {
    if |es| == 0 then [] else Line(es[0], c) + Serialized(es[1..], c)
  }

  lemma {:induction false} SerializedSnoc(es: seq<Entry<real>>, e: Entry<real>, c: Codec)
    ensures Serialized(es + [e], c) == Serialized(es, c) + Line(e, c)
    decreases |es|
  {
    if |es| == 0 {
      assert Serialized([e], c) == Line(e, c) + Serialized([], c);
    } else {
      assert (es + [e])[0] == es[0] && (es + [e])[1..] == es[1..] + [e];
      SerializedSnoc(es[1..], e, c);
    }
  }

  /** doubleSeriesToString(series): appends each entry's line in series order. */
  method DoubleSeriesToString(series: DS.DoubleSeries, c: Codec) returns (s: string)
    ensures s == Serialized(series.data, c)
  {
    s := [];
    for i := 0 to |series.data|
      invariant s == Serialized(series.data[..i], c)
    {
      SerializedSnoc(series.data[..i], series.data[i], c);
      assert series.data[..i + 1] == series.data[..i] + [series.data[i]];
      s := s + Line(series.data[i], c);
    }
    assert series.data[..|series.data|] == series.data;
  }

  // ---------------------------------------------------------------------------
  // String.split on a single character
  // ---------------------------------------------------------------------------

  /** The pieces between the separators, trailing empty ones included. */
  function Pieces(s: string, sep: char): (r: seq<string>)
    ensures |r| >= 1
    ensures forall i :: 0 <= i < |r| ==> sep !in r[i]
    decreases |s|
  {
    if |s| == 0 then [[]]
    else
      var rest := Pieces(s[1..], sep);
      if s[0] == sep then [[]] + rest
      else [[s[0]] + rest[0]] + rest[1..]
  }

  /** The pieces put back together with the separator between them. */
  function Joined(ps: seq<string>, sep: char): string
    requires |ps| >= 1
    decreases |ps|
  {
    if |ps| == 1 then ps[0] else ps[0] + [sep] + Joined(ps[1..], sep)
  }

  /** The pieces are a faithful cut of the text: joined again they give it back. */
  lemma {:induction false} PiecesJoin(s: string, sep: char)
    ensures Joined(Pieces(s, sep), sep) == s
    decreases |s|
  {
    if |s| > 0 {
      var rest := Pieces(s[1..], sep);
      PiecesJoin(s[1..], sep);
      if s[0] == sep {
        assert Joined([[]] + rest, sep) == [] + [sep] + Joined(rest, sep);
        assert s == [s[0]] + s[1..];
      } else {
        var ps := [[s[0]] + rest[0]] + rest[1..];
        if |rest| == 1 {
          assert Joined(ps, sep) == [s[0]] + rest[0];
        } else {
          assert ps[1..] == rest[1..];
          assert Joined(ps, sep) == [s[0]] + rest[0] + [sep] + Joined(rest[1..], sep);
          assert Joined(rest, sep) == rest[0] + [sep] + Joined(rest[1..], sep);
        }
        assert s == [s[0]] + s[1..];
      }
    }
  }

  /** A text without the separator in front of one: the text is one piece. */
  lemma {:induction false} PiecesAfter(a: string, sep: char, b: string)
    requires sep !in a
    ensures Pieces(a + [sep] + b, sep) == [a] + Pieces(b, sep)
    decreases |a|
  {
    if |a| == 0 {
      assert [] + [sep] + b == [sep] + b;
      assert ([sep] + b)[1..] == b;
    } else {
      assert (a + [sep] + b)[0] == a[0];
      assert (a + [sep] + b)[1..] == a[1..] + [sep] + b;
      PiecesAfter(a[1..], sep, b);
      assert [a[0]] + a[1..] == a;
    }
  }

  lemma {:induction false} PiecesWithout(s: string, sep: char)
    requires sep !in s
    ensures Pieces(s, sep) == [s]
    decreases |s|
  {
    if |s| > 0 {
      PiecesWithout(s[1..], sep);
      assert [s[0]] + s[1..] == s;
    }
  }

  /** The pieces with the trailing empty strings removed. */
  function DropTrailingEmpty(ps: seq<string>): (r: seq<string>)
    ensures |r| <= |ps| && r == ps[..|r|]
    ensures |r| > 0 ==> r[|r| - 1] != []
    ensures forall i :: |r| <= i < |ps| ==> ps[i] == []
    decreases |ps|
  {
    if |ps| == 0 then []
    else if ps[|ps| - 1] == [] then DropTrailingEmpty(ps[..|ps| - 1])
    else ps
  }

  /** String.split(sep) for a one-character separator that is not a regular-expression
      operator: the text itself when the separator does not occur, otherwise the pieces
      between separators without the trailing empty ones. */
  function Split(s: string, sep: char): seq<string>
  {
    if sep !in s then [s] else DropTrailingEmpty(Pieces(s, sep))
  }

  // ---------------------------------------------------------------------------
  // Parsing
  // ---------------------------------------------------------------------------

  /** One line: field 0 is the instant and field 1 the value, further fields are ignored.
      Instant.parse runs before field 1 is looked up. */
  function ParseLine(line: string, c: Codec): (r: Result<Entry<real>>)
    ensures r.Ok? ==> var parts := Split(line, Comma);
                      |parts| >= 2 && c.parseInstant(parts[0]) == Some(r.value.instant)
                      && c.parseDouble(parts[1]) == Some(r.value.item)
    ensures r.Err? ==> r.fault in {IndexOutOfBounds, ParseFailure}
  {
    var parts := Split(line, Comma);
    if |parts| == 0 then Err(IndexOutOfBounds)
    else match c.parseInstant(parts[0])
      case None => Err(ParseFailure)
      case Some(instant) =>
        if |parts| < 2 then Err(IndexOutOfBounds)
        else match c.parseDouble(parts[1])
          case None => Err(ParseFailure)
          case Some(value) => Ok(Entry(value, instant))
  }

  /** The lines in order; the first line that does not parse decides the failure. */
  function ParsedLines(lines: seq<string>, c: Codec): (r: Result<seq<Entry<real>>>)
    ensures r.Ok? <==> forall i :: 0 <= i < |lines| ==> ParseLine(lines[i], c).Ok?
    ensures r.Ok? ==> |r.value| == |lines| && forall i :: 0 <= i < |lines| ==> ParseLine(lines[i], c) == Ok(r.value[i])
    ensures r.Err? ==> exists i :: 0 <= i < |lines| && ParseLine(lines[i], c) == Err(r.fault)
                                   && forall j :: 0 <= j < i ==> ParseLine(lines[j], c).Ok?
    decreases |lines|
  {
    if |lines| == 0 then Ok([])
    else
      assert forall i :: 1 <= i < |lines| ==> lines[1..][i - 1] == lines[i];
      match ParseLine(lines[0], c)
      case Err(e) => Err(e)
      case Ok(e) => Prefixed([e], ParsedLines(lines[1..], c))
  }

  /** stringToDoubleSeries(data, name) as a function. */
  function Parsed(data: string, c: Codec, name: string): Result<DS.DoubleSeries>
  {
    match ParsedLines(Split(data, Newline), c)
    case Err(e) => Err(e)
    case Ok(entries) => Ok(DS.DoubleSeries(entries, name))
  }

  /** stringToDoubleSeries(data, seriesName): splits into lines and parses them in order. */
  method StringToDoubleSeries(data: string, c: Codec, seriesName: string) returns (r: Result<DS.DoubleSeries>)
    ensures r == Parsed(data, c, seriesName)
  {
    var entries: seq<Entry<real>> := [];
    var lines := Split(data, Newline);
    assert lines[0..] == lines;
    assert Prefixed([], ParsedLines(lines, c)) == ParsedLines(lines, c) by {
      if ParsedLines(lines, c).Ok? {
        assert [] + ParsedLines(lines, c).value == ParsedLines(lines, c).value;
      }
    }
    for i := 0 to |lines|
      invariant ParsedLines(lines, c) == Prefixed(entries, ParsedLines(lines[i..], c))
    {
      var parsed := ParseLine(lines[i], c);
      if parsed.Err? {
        return Err(parsed.fault);
      }
      PrefixedTwice(entries, [parsed.value], ParsedLines(lines[i + 1..], c));
      assert lines[i..][1..] == lines[i + 1..];
      entries := entries + [parsed.value];
    }
    assert entries + [] == entries;
    return Ok(DS.DoubleSeries(entries, seriesName));
  }

  // ---------------------------------------------------------------------------
  // Properties
  // ---------------------------------------------------------------------------

  /** The codec's texts for this entry can be read back, contain neither separator, and
      the value text is not empty. */
  predicate FaithfulFor(c: Codec, e: Entry<real>)
  {
    c.parseInstant(c.formatInstant(e.instant)) == Some(e.instant)
    && c.parseDouble(c.formatDouble(e.item)) == Some(e.item)
    && Comma !in c.formatInstant(e.instant) && Newline !in c.formatInstant(e.instant)
    && Comma !in c.formatDouble(e.item) && Newline !in c.formatDouble(e.item)
    && c.formatDouble(e.item) != []
  }

  predicate Faithful(c: Codec, es: seq<Entry<real>>)
  {
    forall i :: 0 <= i < |es| ==> FaithfulFor(c, es[i])
  }

  /** The line text of an entry, without its newline. */
  function Body(e: Entry<real>, c: Codec): string
  {
    c.formatInstant(e.instant) + [Comma] + c.formatDouble(e.item)
  }

  function Bodies(es: seq<Entry<real>>, c: Codec): (r: seq<string>)
    ensures |r| == |es| && forall i :: 0 <= i < |es| ==> r[i] == Body(es[i], c)
  {
    seq(|es|, i requires 0 <= i < |es| => Body(es[i], c))
  }

  /** Cutting a serialisation at its newlines gives the line bodies and, after the last
      newline, one empty piece. */
  lemma {:induction false} SerializedPieces(es: seq<Entry<real>>, c: Codec)
    requires Faithful(c, es)
    ensures Pieces(Serialized(es, c), Newline) == Bodies(es, c) + [[]]
    decreases |es|
  {
    if |es| > 0 {
      var body := Body(es[0], c);
      assert Newline !in body;
      assert Faithful(c, es[1..]) by {
        forall i | 0 <= i < |es[1..]| ensures es[1..][i] == es[i + 1] { }
      }
      SerializedPieces(es[1..], c);
      assert Serialized(es, c) == body + [Newline] + Serialized(es[1..], c);
      PiecesAfter(body, Newline, Serialized(es[1..], c));
      assert Bodies(es, c) == [body] + Bodies(es[1..], c);
    }
  }

  /** A line body reads back as its entry. */
  lemma BodyParses(e: Entry<real>, c: Codec)
    requires FaithfulFor(c, e)
    ensures ParseLine(Body(e, c), c) == Ok(e)
  {
    var i, v := c.formatInstant(e.instant), c.formatDouble(e.item);
    PiecesAfter(i, Comma, v);
    PiecesWithout(v, Comma);
    assert Comma in Body(e, c) by { assert Body(e, c)[|i|] == Comma; }
    var ps := Pieces(Body(e, c), Comma);
    assert ps == [i, v];
    assert DropTrailingEmpty(ps) == ps;
  }

  /** Parsing the serialisation of a non-empty series gives its entries back, under the
      name asked for, when the codec round-trips and its texts contain neither ',' nor
      '\n' and the value text is never empty. The final newline adds no line, since split
      drops the trailing empty piece. */
  lemma RoundTrip(s: DS.DoubleSeries, c: Codec, name: string)
    requires |s.data| > 0 && Faithful(c, s.data)
    ensures Parsed(Serialized(s.data, c), c, name) == Ok(DS.DoubleSeries(s.data, name))
  {
    var text := Serialized(s.data, c);
    SerializedPieces(s.data, c);
    var bodies := Bodies(s.data, c);
    assert Newline in text by {
      assert text == Body(s.data[0], c) + [Newline] + Serialized(s.data[1..], c);
      assert text[|Body(s.data[0], c)|] == Newline;
    }
    assert bodies[|bodies| - 1] != [] by {
      assert Comma in bodies[|bodies| - 1] by {
        assert bodies[|bodies| - 1][|c.formatInstant(s.data[|s.data| - 1].instant)|] == Comma;
      }
    }
    assert DropTrailingEmpty(bodies + [[]]) == bodies by {
      assert (bodies + [[]])[..|bodies|] == bodies;
    }
    assert Split(text, Newline) == bodies;
    forall i | 0 <= i < |s.data|
      ensures ParseLine(bodies[i], c) == Ok(s.data[i])
    {
      BodyParses(s.data[i], c);
    }
    var r := ParsedLines(bodies, c);
    assert r.Ok?;
    assert r.value == s.data;
  }

  /** The serialisation of an empty series is the empty text, and parsing the empty text
      fails: split gives one empty line, and its instant does not parse. */
  lemma EmptyDoesNotRoundTrip(c: Codec, name: string)
    requires c.parseInstant([]) == None
    ensures Serialized([], c) == []
    ensures Parsed([], c, name) == Err(ParseFailure)
  {
    assert Split([], Comma) == [[]];
    assert Split([], Newline) == [[]];
  }

  /** A text of only a newline is an empty series: split drops both empty pieces. */
  lemma NewlineOnlyIsEmpty(c: Codec, name: string)
    ensures Parsed([Newline], c, name) == Ok(DS.DoubleSeries([], name))
  {
    assert Newline in [Newline];
    assert Pieces([Newline], Newline) == [[], []];
  }

  /** A line without a comma names no value: it fails after its instant is parsed. */
  lemma LineWithoutValue(line: string, c: Codec, t: Instant)
    requires Comma !in line && c.parseInstant(line) == Some(t)
    ensures ParseLine(line, c) == Err(IndexOutOfBounds)
  {
  }
}
