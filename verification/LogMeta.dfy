/** The metadata line of a log: printed by the logger, parsed by the collector. */
module LogMeta {
  import opened Words

  const SIZE_MAX: int := 0xFFFF_FFFF_FFFF_FFFF

  /** A log's name and its ordered fields with their sizes in bytes. */
  datatype Format = Format(name: string, fields: seq<(string, int)>)

  /** What the collector recovers from a line. Indexing past the end of a split is undefined. */
  datatype Parsed = Undefined | Parsed(format: Format, rowSize: int, count: int)

  // --- Printing ----------------------------------------------------------------------------------

  function Digits(n: nat): string {
    if n < 10 then [('0' as int + n) as char] else Digits(n / 10) + [('0' as int + n % 10) as char]
  }

  function Decimal(n: int): string {
    if n < 0 then "-" + Digits(-n) else Digits(n)
  }

  function FieldText(field: (string, int)): string {
    field.0 + "--" + Decimal(field.1)
  }

  /** Every piece followed by the terminator. */
  function Terminated(pieces: seq<string>, end: char): string {
    if pieces == [] then "" else Terminated(pieces[..|pieces| - 1], end) + pieces[|pieces| - 1] + [end]
  }

  function Pieces(fields: seq<(string, int)>): seq<string> {
    seq(|fields|, i requires 0 <= i < |fields| => FieldText(fields[i]))
  }

  function FieldsText(fields: seq<(string, int)>): string {
    Terminated(Pieces(fields), '|')
  }

  function Line(format: Format, count: int): string {
    format.name + " " + FieldsText(format.fields) + " " + Decimal(count)
  }

  lemma PrintedDecimal()
    ensures Decimal(120) == "120" && Decimal(-7) == "-7"
  {
    assert Digits(7) == "7" && Digits(1) == "1" && Digits(12) == Digits(1) + "2";
  }

  /** The text of a line, written out for a log of two fields. */
  lemma LineOfTwoFields(name: string, a: (string, int), b: (string, int), count: int)
    ensures Line(Format(name, [a, b]), count)
         == name + " " + (a.0 + "--" + Decimal(a.1) + "|" + (b.0 + "--" + Decimal(b.1) + "|")) + " " + Decimal(count)
  {
    var pieces := Pieces([a, b]);
    assert Terminated(pieces, '|') == Terminated([pieces[0]], '|') + pieces[1] + "|" by {
      assert pieces[..1] == [pieces[0]];
    }
    assert Terminated([pieces[0]], '|') == pieces[0] + "|";
  }

  method FormatToString(fields: seq<(string, int)>) returns (result: string)
    ensures result == FieldsText(fields)
  {
    result := "";
    for i := 0 to |fields|
      invariant result == FieldsText(fields[..i])
    {
      assert Pieces(fields[..i + 1])[..i] == Pieces(fields[..i]);
      result := result + fields[i].0 + "--" + Decimal(fields[i].1) + "|";
    }
    assert fields[..|fields|] == fields;
  }

  // --- Splitting ---------------------------------------------------------------------------------

  /** The first position of a separator, or the length of the text. */
  function Find(s: string, sep: char): (i: nat)
    ensures i <= |s| && sep !in s[..i] && (i < |s| ==> s[i] == sep)
  {
    if s == "" || s[0] == sep then 0 else 1 + Find(s[1..], sep)
  }

  /** The pieces between separators; an empty text has one empty piece. */
  function Split(s: string, sep: char): (pieces: seq<string>)
    ensures pieces != []
    decreases |s|
  {
    var i := Find(s, sep);
    if i == |s| then [s] else [s[..i]] + Split(s[i + 1..], sep)
  }

  /** The first position of a double dash; past the last but one character when there is none. */
  function FindDashes(s: string): (i: nat)
    ensures i <= |s|
    ensures i + 2 <= |s| ==> s[i] == '-' && s[i + 1] == '-'
  {
    if |s| < 2 then |s| else if s[0] == '-' && s[1] == '-' then 0 else 1 + FindDashes(s[1..])
  }

  function SplitDashes(s: string): (pieces: seq<string>)
    ensures pieces != []
    decreases |s|
  {
    var i := FindDashes(s);
    if i + 2 <= |s| then [s[..i]] + SplitDashes(s[i + 2..]) else [s]
  }

  function StripBar(s: string): string {
    if s != "" && s[|s| - 1] == '|' then s[..|s| - 1] else s
  }

  // --- Parsing -----------------------------------------------------------------------------------

  predicate IsDigit(c: char) {
    '0' <= c <= '9'
  }

  datatype Number = NotANumber | Number(value: int)

  function ParseDigits(s: string): Number {
    if s == "" || !IsDigit(s[|s| - 1]) then NotANumber
    else
      var digit := s[|s| - 1] as int - '0' as int;
      if |s| == 1 then Number(digit)
      else
        match ParseDigits(s[..|s| - 1])
        case NotANumber => NotANumber
        case Number(n) => Number(10 * n + digit)
  }

  /** A decimal integer with an optional sign that fits the given range. */
  function ParseInt(s: string, min: int, max: int): Number {
    var n :=
      if s != "" && s[0] == '-' then
        match ParseDigits(s[1..])
        case NotANumber => NotANumber
        case Number(v) => Number(-v)
      else if s != "" && s[0] == '+' then ParseDigits(s[1..])
      else ParseDigits(s);
    if n.Number? && min <= n.value <= max then n else NotANumber
  }

  datatype Fields = Bad | Fields(list: seq<(string, int)>)

  /** A piece without a double dash is read out of bounds; one with a bad number is skipped. */
  function ParseFields(pieces: seq<string>): Fields {
    if pieces == [] then Fields([])
    else
      var item := SplitDashes(pieces[|pieces| - 1]);
      match ParseFields(pieces[..|pieces| - 1])
      case Bad => Bad
      case Fields(list) =>
        if |item| < 2 then Bad
        else
          match ParseInt(item[1], -INT_MAX - 1, INT_MAX)
          case NotANumber => Fields(list)
          case Number(size) => Fields(list + [(item[0], size)])
  }

  function TotalSize(fields: seq<(string, int)>): int {
    if fields == [] then 0 else TotalSize(fields[..|fields| - 1]) + fields[|fields| - 1].1
  }

  function ParseLine(line: string): Parsed {
    var format := Split(line, ' ');
    if |format| < 3 then Undefined
    else
      match ParseFields(Split(StripBar(format[1]), '|'))
      case Bad => Undefined
      case Fields(list) =>
        match ParseInt(format[2], 0, SIZE_MAX)
        case NotANumber => Undefined
        case Number(count) => Parsed(Format(format[0], list), TotalSize(list), count)
  }

  lemma {:induction false} BadStaysBad(pieces: seq<string>, k: nat)
    requires k <= |pieces| && ParseFields(pieces[..k]).Bad?
    ensures ParseFields(pieces).Bad?
    decreases |pieces|
  {
    if k < |pieces| {
      assert pieces[..|pieces| - 1][..k] == pieces[..k];
      BadStaysBad(pieces[..|pieces| - 1], k);
    } else {
      assert pieces[..k] == pieces;
    }
  }

  method Collect(line: string) returns (parsed: Parsed)
    ensures parsed == ParseLine(line)
  {
    var format := Split(line, ' ');
    if |format| < 3 {
      return Undefined;
    }
    var types := Split(StripBar(format[1]), '|');
    var rowSize, dataFormat := 0, [];
    for k := 0 to |types|
      invariant ParseFields(types[..k]) == Fields(dataFormat)
      invariant rowSize == TotalSize(dataFormat)
    {
      assert types[..k + 1][..k] == types[..k];
      var item := SplitDashes(types[k]);
      if |item| < 2 {
        BadStaysBad(types, k + 1);
        return Undefined;
      }
      var size := ParseInt(item[1], -INT_MAX - 1, INT_MAX);
      if size.Number? {
        rowSize, dataFormat := rowSize + size.value, dataFormat + [(item[0], size.value)];
        assert dataFormat[..|dataFormat| - 1] + [(item[0], size.value)] == dataFormat;
      }
    }
    assert types[..|types|] == types;
    var n := ParseInt(format[2], 0, SIZE_MAX);
    return if n.Number? then Parsed(Format(format[0], dataFormat), rowSize, n.value) else Undefined;
  }

  // --- Numbers survive ---------------------------------------------------------------------------

  lemma {:induction false} DigitsRoundTrip(n: nat)
    ensures Digits(n) != "" && forall c :: c in Digits(n) ==> IsDigit(c)
    ensures ParseDigits(Digits(n)) == Number(n)
  {
    if n < 10 {
    } else {
      DigitsRoundTrip(n / 10);
      assert Digits(n)[..|Digits(n)| - 1] == Digits(n / 10);
    }
  }

  lemma DecimalRoundTrip(n: int, min: int, max: int)
    requires min <= n <= max
    ensures ParseInt(Decimal(n), min, max) == Number(n)
    ensures forall c :: c in Decimal(n) ==> IsDigit(c) || c == '-'
    ensures n >= 0 ==> '-' !in Decimal(n)
  {
    DigitsRoundTrip(if n < 0 then -n else n);
    if n < 0 {
      assert Decimal(n)[1..] == Digits(-n);
    } else {
      assert Decimal(n)[0] in Decimal(n);
    }
  }

  // --- Splits undo concatenation -----------------------------------------------------------------

  lemma {:induction false} FindIs(s: string, sep: char, i: nat)
    requires i <= |s| && sep !in s[..i] && (i < |s| ==> s[i] == sep)
    ensures Find(s, sep) == i
  {
    if i == 0 {
    } else {
      assert s[0] in s[..i];
      assert s[..i][1..] == s[1..][..i - 1];
      FindIs(s[1..], sep, i - 1);
    }
  }

  lemma SplitOnce(piece: string, sep: char, rest: string)
    requires sep !in piece
    ensures Split(piece + [sep] + rest, sep) == [piece] + Split(rest, sep)
  {
    var s := piece + [sep] + rest;
    assert s[..|piece|] == piece && s[|piece| + 1..] == rest;
    FindIs(s, sep, |piece|);
  }

  lemma SplitNone(piece: string, sep: char)
    requires sep !in piece
    ensures Split(piece, sep) == [piece]
  {
    assert piece[..|piece|] == piece;
    FindIs(piece, sep, |piece|);
  }

  /** No piece of a split contains the separator, nor any character the text did not. */
  lemma {:induction false} PiecesAreClean(s: string, sep: char)
    ensures forall p, c :: p in Split(s, sep) && c in p ==> c != sep && c in s
    decreases |s|
  {
    var i := Find(s, sep);
    if i == |s| {
    } else {
      PiecesAreClean(s[i + 1..], sep);
    }
  }

  /** A name that a double dash can follow and still be found where the name ends. */
  predicate DashFree(name: string) {
    && (forall i :: 0 <= i < |name| - 1 ==> !(name[i] == '-' && name[i + 1] == '-'))
    && (name != "" ==> name[|name| - 1] != '-')
  }

  lemma DashFreeTail(name: string)
    requires DashFree(name) && name != ""
    ensures DashFree(name[1..])
  {
    forall i | 0 <= i < |name| - 2
      ensures !(name[1..][i] == '-' && name[1..][i + 1] == '-')
    {
      assert name[1..][i] == name[i + 1] && name[1..][i + 1] == name[i + 2];
    }
  }

  lemma {:induction false} DashesAfter(name: string, rest: string)
    requires DashFree(name)
    ensures FindDashes(name + "--" + rest) == |name|
  {
    var s := name + "--" + rest;
    if name == "" {
    } else {
      assert name[1..] + "--" + rest == s[1..];
      DashFreeTail(name);
      DashesAfter(name[1..], rest);
      assert s[0] == name[0];
      assert |name| == 1 ==> s[0] != '-';
      assert |name| > 1 ==> s[1] == name[1];
    }
  }

  lemma {:induction false} BeforeDashes(s: string)
    requires FindDashes(s) + 2 <= |s|
    ensures DashFree(s[..FindDashes(s)])
  {
    var i := FindDashes(s);
    if i == 0 {
    } else {
      BeforeDashes(s[1..]);
      var head, tail := s[..i], s[1..][..i - 1];
      assert head == [s[0]] + tail;
      assert |tail| > 0 ==> tail[0] == s[1];
      assert |tail| == 0 ==> s[1] == '-';
    }
  }

  // --- The round trip ----------------------------------------------------------------------------

  predicate CleanName(name: string) {
    ' ' !in name && '|' !in name && DashFree(name)
  }

  /** The formats whose line can be read back. */
  ghost predicate Clean(format: Format) {
    && ' ' !in format.name
    && format.fields != []
    && forall field :: field in format.fields ==> CleanName(field.0)
  }

  ghost predicate Sized(format: Format) {
    forall field :: field in format.fields ==> -INT_MAX - 1 <= field.1 <= INT_MAX
  }

  lemma SplitAfter(name: string, rest: string)
    requires DashFree(name)
    ensures SplitDashes(name + "--" + rest) == [name] + SplitDashes(rest)
  {
    DashesAfter(name, rest);
    var s := name + "--" + rest;
    assert s[..|name|] == name && s[|name| + 2..] == rest;
  }

  lemma {:induction false} DigitsNotDashed(s: string)
    requires forall c :: c in s ==> IsDigit(c)
    ensures FindDashes(s) + 2 > |s|
  {
    if |s| < 2 {
    } else {
      assert s[0] in s;
      DigitsNotDashed(s[1..]);
    }
  }

  lemma NumberHasNoDashes(n: int)
    ensures SplitDashes(Decimal(n)) == [Decimal(n)]
  {
    DigitsRoundTrip(if n < 0 then -n else n);
    DigitsNotDashed(Digits(if n < 0 then -n else n));
    if n < 0 {
      assert Decimal(n)[1..] == Digits(-n);
      assert Decimal(n)[1] == Digits(-n)[0] && Digits(-n)[0] in Digits(-n);
    }
  }

  lemma FieldRoundTrip(field: (string, int))
    requires CleanName(field.0) && -INT_MAX - 1 <= field.1 <= INT_MAX
    ensures ' ' !in FieldText(field) && '|' !in FieldText(field) && FieldText(field) != ""
    ensures var item := SplitDashes(FieldText(field));
            |item| >= 2 && item[0] == field.0 && ParseInt(item[1], -INT_MAX - 1, INT_MAX) == Number(field.1)
  {
    SplitAfter(field.0, Decimal(field.1));
    NumberHasNoDashes(field.1);
    DecimalRoundTrip(field.1, -INT_MAX - 1, INT_MAX);
  }

  lemma Reassociate(a: string, b: string, c: string, d: string)
    ensures a + b + c + d == a + (b + c + d)
  {
  }

  lemma OneMorePiece(front: seq<string>, last: string, end: char, rest: string)
    ensures Terminated(front + [last], end) + rest == Terminated(front, end) + (last + [end] + rest)
  {
    assert (front + [last])[..|front|] == front;
    Reassociate(Terminated(front, end), last, [end], rest);
  }

  lemma MoveOne(front: seq<string>, last: string, rest: seq<string>)
    ensures front + [last] + rest == front + ([last] + rest)
  {
  }

  lemma {:induction false} SplitTerminated(pieces: seq<string>, end: char, rest: string)
    requires forall p :: p in pieces ==> end !in p
    ensures Split(Terminated(pieces, end) + rest, end) == pieces + Split(rest, end)
    decreases |pieces|
  {
    if pieces == [] {
      assert "" + rest == rest && pieces + Split(rest, end) == Split(rest, end);
    } else {
      var front, last := pieces[..|pieces| - 1], pieces[|pieces| - 1];
      assert pieces == front + [last] && last in pieces;
      SplitTerminated(front, end, last + [end] + rest);
      SplitOnce(last, end, rest);
      OneMorePiece(front, last, end, rest);
      MoveOne(front, last, Split(rest, end));
    }
  }

  lemma {:induction false} TerminatedChars(pieces: seq<string>, end: char, c: char)
    requires c != end && forall p :: p in pieces ==> c !in p
    ensures c !in Terminated(pieces, end)
    decreases |pieces|
  {
    if pieces == [] {
    } else {
      assert pieces[|pieces| - 1] in pieces;
      TerminatedChars(pieces[..|pieces| - 1], end, c);
    }
  }

  ghost predicate Readable(fields: seq<(string, int)>) {
    forall field :: field in fields ==> CleanName(field.0) && -INT_MAX - 1 <= field.1 <= INT_MAX
  }

  lemma ReadablePieces(fields: seq<(string, int)>)
    requires Readable(fields)
    ensures forall p :: p in Pieces(fields) ==> ' ' !in p && '|' !in p
  {
    forall p | p in Pieces(fields)
      ensures ' ' !in p && '|' !in p
    {
      var i :| 0 <= i < |fields| && Pieces(fields)[i] == p;
      assert fields[i] in fields;
      FieldRoundTrip(fields[i]);
    }
  }

  lemma ReadableParts(fields: seq<(string, int)>)
    requires Readable(fields) && fields != []
    ensures var front, last := fields[..|fields| - 1], fields[|fields| - 1];
            && fields == front + [last] && Pieces(fields) == Pieces(front) + [FieldText(last)]
            && Readable(front) && CleanName(last.0) && -INT_MAX - 1 <= last.1 <= INT_MAX
  {
    assert fields[|fields| - 1] in fields;
  }

  lemma ParseOneMore(pieces: seq<string>, list: seq<(string, int)>, field: (string, int))
    requires ParseFields(pieces) == Fields(list)
    requires CleanName(field.0) && -INT_MAX - 1 <= field.1 <= INT_MAX
    ensures ParseFields(pieces + [FieldText(field)]) == Fields(list + [field])
  {
    FieldRoundTrip(field);
    assert (pieces + [FieldText(field)])[..|pieces|] == pieces;
  }

  lemma {:induction false} ParsePieces(fields: seq<(string, int)>)
    requires Readable(fields)
    ensures ParseFields(Pieces(fields)) == Fields(fields)
    decreases |fields|
  {
    if fields == [] {
    } else {
      var front, last := fields[..|fields| - 1], fields[|fields| - 1];
      ReadableParts(fields);
      ParsePieces(front);
      ParseOneMore(Pieces(front), front, last);
    }
  }

  lemma StripTerminated(front: seq<string>, last: string)
    ensures StripBar(Terminated(front + [last], '|')) == Terminated(front, '|') + last
  {
    assert (front + [last])[..|front|] == front;
  }

  lemma FieldsSurvive(fields: seq<(string, int)>)
    requires Readable(fields) && fields != []
    ensures ParseFields(Split(StripBar(FieldsText(fields)), '|')) == Fields(fields)
  {
    var front, last := fields[..|fields| - 1], FieldText(fields[|fields| - 1]);
    ReadableParts(fields);
    ReadablePieces(fields);
    assert last in Pieces(fields);
    StripTerminated(Pieces(front), last);
    SplitTerminated(Pieces(front), '|', last);
    SplitNone(last, '|');
    ParsePieces(fields);
  }

  lemma Regrouped(a: string, b: string, c: string)
    ensures a + " " + b + " " + c == a + [' '] + (b + [' '] + c)
  {
  }

  lemma SplitTwice(a: string, b: string, c: string)
    requires ' ' !in a && ' ' !in b
    ensures Split(a + " " + b + " " + c, ' ') == [a] + ([b] + Split(c, ' '))
  {
    Regrouped(a, b, c);
    SplitOnce(a, ' ', b + [' '] + c);
    SplitOnce(b, ' ', c);
  }

  /** Reading a printed line recovers the name, the ordered fields, the row size and the count. */
  lemma LineRoundTrip(format: Format, count: int)
    requires Clean(format) && Sized(format) && 0 <= count <= INT_MAX
    ensures ParseLine(Line(format, count)) == Parsed(format, TotalSize(format.fields), count)
  {
    var text, number := FieldsText(format.fields), Decimal(count);
    ReadablePieces(format.fields);
    TerminatedChars(Pieces(format.fields), '|', ' ');
    DecimalRoundTrip(count, 0, SIZE_MAX);
    SplitTwice(format.name, text, number);
    SplitNone(number, ' ');
    FieldsSurvive(format.fields);
  }

  // --- Nothing else can be read back -------------------------------------------------------------

  /** A parsed name is cut out of one of the pieces, before a double dash. */
  lemma {:induction false} ParsedNames(pieces: seq<string>, c: char)
    requires forall p :: p in pieces ==> c !in p
    ensures var parsed := ParseFields(pieces);
            parsed.Fields? ==> forall field :: field in parsed.list ==> c !in field.0 && DashFree(field.0)
    decreases |pieces|
  {
    if pieces == [] {
    } else {
      var last := pieces[|pieces| - 1];
      assert last in pieces;
      ParsedNames(pieces[..|pieces| - 1], c);
      if |SplitDashes(last)| >= 2 {
        BeforeDashes(last);
      }
    }
  }

  /** Whatever the collector recovers from any line is clean, except that it may have no fields, and
      uses no character the line does not. */
  lemma ParsedIsClean(line: string)
    requires ParseLine(line).Parsed?
    ensures var format := ParseLine(line).format;
            && ' ' !in format.name && (forall field :: field in format.fields ==> CleanName(field.0))
            && ('\n' !in line ==> '\n' !in format.name && forall field :: field in format.fields ==> '\n' !in field.0)
  {
    var format := Split(line, ' ');
    PiecesAreClean(line, ' ');
    var text := StripBar(format[1]);
    assert format[0] in format && format[1] in format;
    assert forall d :: d in text ==> d in format[1];
    PiecesAreClean(text, '|');
    var pieces := Split(text, '|');
    ParsedNames(pieces, ' ');
    ParsedNames(pieces, '|');
    if '\n' !in line {
      ParsedNames(pieces, '\n');
    }
  }

  lemma NoFieldsIsUndefined(name: string, count: int)
    requires ' ' !in name && 0 <= count
    ensures ParseLine(Line(Format(name, []), count)) == Undefined
  {
    SplitTwice(name, "", Decimal(count));
    SplitNone("", '|');
    assert ParseFields([""]).Bad?;
  }

  /** The collector recovers exactly what the logger described if and only if the format is clean. */
  lemma LineRoundTripIff(format: Format, count: int)
    requires Sized(format) && 0 <= count <= INT_MAX
    ensures ParseLine(Line(format, count)) == Parsed(format, TotalSize(format.fields), count) <==> Clean(format)
  {
    if Clean(format) {
      LineRoundTrip(format, count);
    } else if ParseLine(Line(format, count)) == Parsed(format, TotalSize(format.fields), count) {
      ParsedIsClean(Line(format, count));
      NoFieldsIsUndefined(format.name, count);
    }
  }

  // --- The whole file ----------------------------------------------------------------------------

  function PrintedLines(formats: seq<Format>, counts: seq<nat>): seq<string>
    requires |formats| == |counts|
  {
    seq(|formats|, i requires 0 <= i < |formats| => Line(formats[i], counts[i]))
  }

  function MetaText(formats: seq<Format>, counts: seq<nat>): string
    requires |formats| == |counts|
  {
    Terminated(PrintedLines(formats, counts), '\n')
  }

  /** The lines of a file whose last line is terminated. */
  function Lines(text: string): seq<string> {
    var pieces := Split(text, '\n');
    pieces[..|pieces| - 1]
  }

  ghost predicate OneLine(format: Format) {
    '\n' !in format.name && forall field :: field in format.fields ==> '\n' !in field.0
  }

  lemma FieldsOnOneLine(fields: seq<(string, int)>)
    requires forall field :: field in fields ==> '\n' !in field.0
    ensures '\n' !in FieldsText(fields)
  {
    forall p | p in Pieces(fields)
      ensures '\n' !in p
    {
      var i :| 0 <= i < |fields| && Pieces(fields)[i] == p;
      assert fields[i] in fields;
      DecimalRoundTrip(fields[i].1, fields[i].1, fields[i].1);
    }
    TerminatedChars(Pieces(fields), '|', '\n');
  }

  lemma LineHasNoBreak(format: Format, count: int)
    requires OneLine(format)
    ensures '\n' !in Line(format, count)
  {
    FieldsOnOneLine(format.fields);
    DecimalRoundTrip(count, count, count);
  }

  /** Reading the metadata file back gives every log's line, in order. */
  lemma MetaLines(formats: seq<Format>, counts: seq<nat>)
    requires |formats| == |counts| && forall format :: format in formats ==> OneLine(format)
    ensures Lines(MetaText(formats, counts)) == PrintedLines(formats, counts)
  {
    var lines := PrintedLines(formats, counts);
    forall p | p in lines
      ensures '\n' !in p
    {
      var i :| 0 <= i < |formats| && lines[i] == p;
      assert formats[i] in formats;
      LineHasNoBreak(formats[i], counts[i]);
    }
    SplitTerminated(lines, '\n', "");
    assert MetaText(formats, counts) + "" == MetaText(formats, counts);
    SplitNone("", '\n');
  }

  function ReadBack(text: string): seq<Parsed> {
    var lines := Lines(text);
    seq(|lines|, i requires 0 <= i < |lines| => ParseLine(lines[i]))
  }

  function Described(formats: seq<Format>, counts: seq<nat>): seq<Parsed>
    requires |formats| == |counts|
  {
    seq(|formats|, i requires 0 <= i < |formats| => Parsed(formats[i], TotalSize(formats[i].fields), counts[i]))
  }

  lemma MetaRoundTrip(formats: seq<Format>, counts: seq<nat>)
    requires |formats| == |counts|
    requires forall i :: 0 <= i < |formats| ==>
               Clean(formats[i]) && OneLine(formats[i]) && Sized(formats[i]) && counts[i] <= INT_MAX
    ensures ReadBack(MetaText(formats, counts)) == Described(formats, counts)
  {
    MetaLines(formats, counts);
    forall i | 0 <= i < |formats|
      ensures ParseLine(Line(formats[i], counts[i])) == Parsed(formats[i], TotalSize(formats[i].fields), counts[i])
    {
      LineRoundTrip(formats[i], counts[i]);
    }
  }

  lemma ReadIsOneLine(formats: seq<Format>, counts: seq<nat>, i: nat)
    requires |formats| == |counts| && i < |formats|
    requires ReadBack(MetaText(formats, counts)) == Described(formats, counts)
    ensures OneLine(formats[i]) && ' ' !in formats[i].name
    ensures forall field :: field in formats[i].fields ==> CleanName(field.0)
  {
    var text := MetaText(formats, counts);
    var line := Lines(text)[i];
    assert ReadBack(text)[i] == ParseLine(line) == Described(formats, counts)[i];
    assert line in Split(text, '\n');
    PiecesAreClean(text, '\n');
    ParsedIsClean(line);
  }

  /** The collector reads back exactly what the logger wrote if and only if every format is clean
      and free of line breaks. */
  lemma MetaRoundTripIff(formats: seq<Format>, counts: seq<nat>)
    requires |formats| == |counts|
    requires forall i :: 0 <= i < |formats| ==> Sized(formats[i]) && counts[i] <= INT_MAX
    ensures ReadBack(MetaText(formats, counts)) == Described(formats, counts)
            <==> forall i :: 0 <= i < |formats| ==> Clean(formats[i]) && OneLine(formats[i])
  {
    if forall i :: 0 <= i < |formats| ==> Clean(formats[i]) && OneLine(formats[i]) {
      MetaRoundTrip(formats, counts);
    } else if ReadBack(MetaText(formats, counts)) == Described(formats, counts) {
      forall i | 0 <= i < |formats|
        ensures OneLine(formats[i]) && ' ' !in formats[i].name
        ensures forall field :: field in formats[i].fields ==> CleanName(field.0)
      {
        ReadIsOneLine(formats, counts, i);
      }
      MetaLines(formats, counts);
      forall i | 0 <= i < |formats|
        ensures formats[i].fields != []
      {
        assert Described(formats, counts)[i] == ParseLine(PrintedLines(formats, counts)[i]);
        NoFieldsIsUndefined(formats[i].name, counts[i]);
      }
    }
  }
}
