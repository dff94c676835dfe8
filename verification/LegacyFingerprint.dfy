/**
 * The historical schema manifest (packages/db/src/legacy-fingerprint.ts): schema objects are
 * printed as a list of tuples of quoted strings before being hashed. Distinct schemas must
 * print differently for the fingerprint to identify one.
 */
module LegacyFingerprint {
  import opened Wrappers

  datatype ObjectRow = ObjectRow(kind: string, name: string, table: string, sql: string)

  function ReplaceAll(s: string, c: char, with: string): string {
    if s == "" then "" else (if s[0] == c then with else [s[0]]) + ReplaceAll(s[1..], c, with)
  }

  function QuoteFor(value: string): char {
    if '\'' in value && '"' !in value then '"' else '\''
  }

  /** The five replacements, in the order the source chains them. */
  function EscapePasses(value: string, quote: char): string {
    var lines := ReplaceAll(ReplaceAll(value, '\\', "\\\\"), '\n', "\\n");
    var blanks := ReplaceAll(ReplaceAll(lines, '\r', "\\r"), '\t', "\\t");
    ReplaceAll(blanks, quote, ['\\', quote])
  }

  function LegacyString(value: string): string {
    var quote := QuoteFor(value);
    [quote] + EscapePasses(value, quote) + [quote]
  }

  function Join(parts: seq<string>, separator: string): string {
    if parts == [] then "" else if |parts| == 1 then parts[0] else parts[0] + separator + Join(parts[1..], separator)
  }

  function Tuple(o: ObjectRow): string {
    "(" + Join([LegacyString(o.kind), LegacyString(o.name), LegacyString(o.table), LegacyString(o.sql)], ", ") + ")"
  }

  function Tuples(objects: seq<ObjectRow>): (r: seq<string>)
    ensures |r| == |objects| && forall i :: 0 <= i < |r| ==> r[i] == Tuple(objects[i])
  {
    seq(|objects|, i requires 0 <= i < |objects| => Tuple(objects[i]))
  }

  /** What legacySchemaFingerprint hashes. */
  function Representation(objects: seq<ObjectRow>): string {
    "[" + Join(Tuples(objects), ", ") + "]"
  }

  /** Double quotes are chosen only for a text with single ones and no double ones, so what has one kind needs no escape. */
  lemma QuoteIff(value: string)
    ensures LegacyString(value)[0] == LegacyString(value)[|LegacyString(value)| - 1] ==
      if '\'' in value && '"' !in value then '"' else '\''
    ensures LegacyString(value)[0] in value <==> '\'' in value && '"' in value
  {
  }

  // ---------- the passes are one pass ----------

  function EscapeChar(c: char, quote: char): string {
    if c == '\\' then "\\\\" else if c == '\n' then "\\n" else if c == '\r' then "\\r"
    else if c == '\t' then "\\t" else if c == quote then ['\\', quote] else [c]
  }

  function Escape(value: string, quote: char): string {
    if value == "" then "" else EscapeChar(value[0], quote) + Escape(value[1..], quote)
  }

  lemma {:induction false} ReplaceConcat(a: string, b: string, c: char, with: string)
    ensures ReplaceAll(a + b, c, with) == ReplaceAll(a, c, with) + ReplaceAll(b, c, with)
  {
    if a == "" {
      assert a + b == b;
    } else {
      assert (a + b)[1..] == a[1..] + b;
      ReplaceConcat(a[1..], b, c, with);
    }
  }

  lemma {:induction false} Untouched(s: string, c: char, with: string)
    requires c !in s
    ensures ReplaceAll(s, c, with) == s
  {
    if s != "" {
      Untouched(s[1..], c, with);
      assert s == [s[0]] + s[1..];
    }
  }

  /** One pass over a character, or over what an earlier pass has made of it. */
  lemma Pass(s: string, c: char, x: char, with: string)
    requires s == [c] || x !in s
    ensures ReplaceAll(s, x, with) == if s == [c] && c == x then with else s
  {
    if x !in s {
      Untouched(s, x, with);
    } else {
      assert s[1..] == "" && with + "" == with;
    }
  }

  lemma PassesOnChar(c: char, quote: char)
    requires quote in "'\""
    ensures EscapePasses([c], quote) == EscapeChar(c, quote)
  {
    Pass([c], c, '\\', "\\\\");
    var a := if c == '\\' then "\\\\" else [c];
    Pass(a, c, '\n', "\\n");
    var b := if c == '\n' then "\\n" else a;
    Pass(b, c, '\r', "\\r");
    var d := if c == '\r' then "\\r" else b;
    Pass(d, c, '\t', "\\t");
    var e := if c == '\t' then "\\t" else d;
    Pass(e, c, quote, ['\\', quote]);
  }

  lemma PassesConcat(x: string, y: string, quote: char)
    ensures EscapePasses(x + y, quote) == EscapePasses(x, quote) + EscapePasses(y, quote)
  {
    ReplaceConcat(x, y, '\\', "\\\\");
    var a, b := ReplaceAll(x, '\\', "\\\\"), ReplaceAll(y, '\\', "\\\\");
    ReplaceConcat(a, b, '\n', "\\n");
    a, b := ReplaceAll(a, '\n', "\\n"), ReplaceAll(b, '\n', "\\n");
    ReplaceConcat(a, b, '\r', "\\r");
    a, b := ReplaceAll(a, '\r', "\\r"), ReplaceAll(b, '\r', "\\r");
    ReplaceConcat(a, b, '\t', "\\t");
    a, b := ReplaceAll(a, '\t', "\\t"), ReplaceAll(b, '\t', "\\t");
    ReplaceConcat(a, b, quote, ['\\', quote]);
  }

  /** No pass touches what an earlier one wrote: the chain escapes each character exactly once. */
  lemma {:induction false} PassesAreOnePass(value: string, quote: char)
    requires quote in "'\""
    ensures EscapePasses(value, quote) == Escape(value, quote)
  {
    if value != "" {
      assert value == [value[0]] + value[1..];
      PassesConcat([value[0]], value[1..], quote);
      PassesOnChar(value[0], quote);
      PassesAreOnePass(value[1..], quote);
    }
  }

  // ---------- reading back ----------

  /** Reads an escaped string up to its closing quote. */
  function Scan(s: string, quote: char): (r: Option<(string, string)>)
    ensures r.Some? ==> |r.value.1| < |s|
  {
    if s == "" then None
    else if s[0] == quote then Some(("", s[1..]))
    else if s[0] != '\\' then
      match Scan(s[1..], quote)
      case None => None
      case Some((v, rest)) => Some(([s[0]] + v, rest))
    else if |s| < 2 then None
    else
      var c := if s[1] == 'n' then '\n' else if s[1] == 'r' then '\r' else if s[1] == 't' then '\t' else s[1];
      match Scan(s[2..], quote)
      case None => None
      case Some((v, rest)) => Some(([c] + v, rest))
  }

  function ReadString(s: string): (r: Option<(string, string)>)
    ensures r.Some? ==> |r.value.1| < |s|
  {
    if s != "" && s[0] in "'\"" then Scan(s[1..], s[0]) else None
  }

  /** A string followed by the given separator. */
  function ReadField(s: string, separator: string): (r: Option<(string, string)>)
    ensures r.Some? ==> |r.value.1| < |s|
  {
    match ReadString(s)
    case None => None
    case Some((v, rest)) => if separator <= rest then Some((v, rest[|separator|..])) else None
  }

  function ReadFields(s: string, count: nat): (r: Option<(seq<string>, string)>)
    ensures r.Some? ==> |r.value.1| <= |s| && |r.value.0| == count
    decreases count
  {
    if count == 0 then Some(([], s))
    else
      match ReadField(s, if count == 1 then ")" else ", ")
      case None => None
      case Some((v, rest)) =>
        match ReadFields(rest, count - 1)
        case None => None
        case Some((vs, after)) => Some(([v] + vs, after))
  }

  /** One tuple and what follows it. */
  function ReadTuple(s: string): (r: Option<(ObjectRow, string)>)
    ensures r.Some? ==> |r.value.1| < |s|
  {
    if !("(" <= s) then None else
    match ReadFields(s[1..], 4)
    case None => None
    case Some((v, rest)) => Some((ObjectRow(v[0], v[1], v[2], v[3]), rest))
  }

  /** One or more tuples up to the closing bracket. */
  function ReadTuples(s: string): Option<seq<ObjectRow>>
    decreases |s|
  {
    match ReadTuple(s)
    case None => None
    case Some((o, rest)) =>
      if rest == "]" then Some([o])
      else if ", " <= rest then
        (match ReadTuples(rest[2..])
         case None => None
         case Some(os) => Some([o] + os))
      else None
  }

  function Read(s: string): Option<seq<ObjectRow>> {
    if s == "[]" then Some([]) else if "[" <= s then ReadTuples(s[1..]) else None
  }

  lemma OneLetter(c: char)
    requires c !in "'\"\\\n\r\t"
    ensures LegacyString([c]) == ['\'', c, '\'']
  {
    PassesAreOnePass([c], '\'');
    assert Escape([c], '\'') == [c] + Escape([c][1..], '\'') == [c];
  }

  lemma QuotedExample()
    ensures LegacyString("'\n") == "\"'\\n\""
  {
    var v := "'\n";
    assert v[0] == '\'' && v[1] == '\n' && v[1..] == "\n" && v[1..][1..] == "";
    PassesAreOnePass(v, '"');
    assert Escape("\n", '"') == "\\n" + Escape("", '"') == "\\n";
    assert Escape(v, '"') == "'" + Escape("\n", '"');
  }

  /** What Python printed for a list of one object. */
  lemma RepresentationExample()
    ensures Representation([ObjectRow("t", "n", "a", "'\n")]) ==
      "[(" + ("'t'" + ", " + ("'n'" + ", " + ("'a'" + ", " + "\"'\\n\""))) + ")]"
  {
    OneLetter('t');
    OneLetter('n');
    OneLetter('a');
    QuotedExample();
    var o := ObjectRow("t", "n", "a", "'\n");
    FourJoined(LegacyString("t"), LegacyString("n"), LegacyString("a"), LegacyString("'\n"));
    Bracketed(o);
  }

  lemma Bracketed(o: ObjectRow)
    ensures Representation([o]) ==
      "[(" + Join([LegacyString(o.kind), LegacyString(o.name), LegacyString(o.table), LegacyString(o.sql)], ", ") + ")]"
  {
    assert Tuples([o]) == [Tuple(o)];
    JoinStep([Tuple(o)], ", ");
    Nested(Join([LegacyString(o.kind), LegacyString(o.name), LegacyString(o.table), LegacyString(o.sql)], ", "));
  }

  lemma Nested(x: string)
    ensures "[" + ("(" + x + ")") + "]" == "[(" + x + ")]"
  {
  }

  lemma FourJoined(a: string, b: string, c: string, d: string)
    ensures Join([a, b, c, d], ", ") == a + ", " + (b + ", " + (c + ", " + d))
  {
    JoinStep([a, b, c, d], ", ");
    JoinStep([b, c, d], ", ");
    JoinStep([c, d], ", ");
    assert [a, b, c, d][1..] == [b, c, d] && [b, c, d][1..] == [c, d] && [c, d][1..] == [d];
  }

  lemma ScanOne(c: char, quote: char, tail: string, v: string, rest: string)
    requires quote in "'\"" && Scan(tail, quote) == Some((v, rest))
    ensures Scan(EscapeChar(c, quote) + tail, quote) == Some(([c] + v, rest))
  {
    var e := EscapeChar(c, quote);
    var s := e + tail;
    if |e| == 1 {
      assert s[0] == c && s[1..] == tail;
    } else {
      assert s[0] == '\\' && s[1] == e[1] && s[2..] == tail;
    }
  }

  lemma {:induction false} ScanEscaped(value: string, quote: char, rest: string)
    requires quote in "'\""
    ensures Scan(Escape(value, quote) + [quote] + rest, quote) == Some((value, rest))
  {
    if value == "" {
      assert Escape(value, quote) + [quote] + rest == [quote] + rest;
      assert ([quote] + rest)[1..] == rest;
    } else {
      var tail := Escape(value[1..], quote) + [quote] + rest;
      ScanEscaped(value[1..], quote, rest);
      ScanOne(value[0], quote, tail, value[1..], rest);
      EscapedSplits(value, quote, rest);
    }
  }

  lemma EscapedSplits(value: string, quote: char, rest: string)
    requires value != ""
    ensures Escape(value, quote) + [quote] + rest == EscapeChar(value[0], quote) + (Escape(value[1..], quote) + [quote] + rest)
    ensures [value[0]] + value[1..] == value
  {
    Regrouped(EscapeChar(value[0], quote), Escape(value[1..], quote), [quote], rest);
  }

  lemma Regrouped(a: string, b: string, c: string, d: string)
    ensures (a + b) + c + d == a + (b + c + d)
  {
  }

  /** Every printed string reads back as itself, whatever follows it. */
  lemma ReadPrinted(value: string, rest: string)
    ensures ReadString(LegacyString(value) + rest) == Some((value, rest))
  {
    var quote := QuoteFor(value);
    PassesAreOnePass(value, quote);
    ScanEscaped(value, quote, rest);
    assert (LegacyString(value) + rest)[1..] == Escape(value, quote) + [quote] + rest;
  }

  lemma ReadLastField(value: string, rest: string)
    ensures ReadFields(LegacyString(value) + (")" + rest), 1) == Some(([value], rest))
  {
    ReadPrinted(value, ")" + rest);
    assert (")" + rest)[1..] == rest;
    assert ReadField(LegacyString(value) + (")" + rest), ")") == Some((value, rest));
    assert ReadFields(rest, 0) == Some(([], rest)) && [value] + [] == [value];
  }

  lemma ReadFieldBefore(value: string, tail: string, n: nat, values: seq<string>, rest: string)
    requires n > 0 && ReadFields(tail, n) == Some((values, rest))
    ensures ReadFields(LegacyString(value) + (", " + tail), n + 1) == Some(([value] + values, rest))
  {
    ReadPrinted(value, ", " + tail);
    assert (", " + tail)[2..] == tail;
  }

  /** The text of fields, up to the closing parenthesis and what follows it. */
  function FieldsText(values: seq<string>, rest: string): string
    requires values != []
  {
    Join(Printed(values), ", ") + ")" + rest
  }

  lemma FieldsTextParts(values: seq<string>, rest: string)
    requires values != []
    ensures FieldsText(values, rest) ==
            LegacyString(values[0]) + if |values| == 1 then ")" + rest else ", " + FieldsText(values[1..], rest)
  {
    if |values| > 1 { assert Printed(values)[1..] == Printed(values[1..]); }
  }

  lemma {:induction false} ReadPrintedFields(values: seq<string>, rest: string)
    requires values != []
    ensures ReadFields(FieldsText(values, rest), |values|) == Some((values, rest))
  {
    FieldsTextParts(values, rest);
    if |values| == 1 {
      ReadLastField(values[0], rest);
      assert values == [values[0]];
    } else {
      ReadPrintedFields(values[1..], rest);
      ReadFieldBefore(values[0], FieldsText(values[1..], rest), |values| - 1, values[1..], rest);
      assert [values[0]] + values[1..] == values;
    }
  }

  function Printed(values: seq<string>): (r: seq<string>)
    ensures |r| == |values|
  {
    seq(|values|, i requires 0 <= i < |values| => LegacyString(values[i]))
  }

  lemma PrintedFour(a: string, b: string, c: string, d: string)
    ensures Printed([a, b, c, d]) == [LegacyString(a), LegacyString(b), LegacyString(c), LegacyString(d)]
  {
  }

  lemma Parenthesized(body: string, rest: string)
    ensures "(" + body + ")" + rest == "(" + (body + ")" + rest)
    ensures ("(" + (body + ")" + rest))[1..] == body + ")" + rest
  {
  }

  lemma ReadPrintedTuple(o: ObjectRow, rest: string)
    ensures ReadTuple(Tuple(o) + rest) == Some((o, rest))
  {
    var values := [o.kind, o.name, o.table, o.sql];
    var body := Join(Printed(values), ", ");
    ReadPrintedFields(values, rest);
    PrintedFour(o.kind, o.name, o.table, o.sql);
    Parenthesized(body, rest);
    assert Tuple(o) + rest == "(" + (body + ")" + rest);
  }

  lemma ReadLast(o: ObjectRow)
    ensures ReadTuples(Tuple(o) + "]") == Some([o])
  {
    ReadPrintedTuple(o, "]");
  }

  lemma ReadBefore(o: ObjectRow, tail: string, os: seq<ObjectRow>)
    requires ReadTuples(tail) == Some(os)
    ensures ReadTuples(Tuple(o) + (", " + tail)) == Some([o] + os)
  {
    ReadPrintedTuple(o, ", " + tail);
    assert (", " + tail)[0] == ',';
    assert (", " + tail)[2..] == tail;
  }

  /** What follows the opening bracket of a list. */
  function ListBody(objects: seq<ObjectRow>): string
    requires objects != []
  {
    if |objects| == 1 then Tuple(objects[0]) + "]" else Tuple(objects[0]) + (", " + ListBody(objects[1..]))
  }

  lemma {:induction false} JoinedIsBody(objects: seq<ObjectRow>)
    requires objects != []
    ensures Join(Tuples(objects), ", ") + "]" == ListBody(objects)
  {
    var parts := Tuples(objects);
    JoinStep(parts, ", ");
    if |objects| > 1 {
      JoinedIsBody(objects[1..]);
      assert parts[1..] == Tuples(objects[1..]);
      Reassociated(parts[0], ", ", Join(parts[1..], ", "), "]");
    }
  }

  lemma JoinStep(parts: seq<string>, separator: string)
    requires parts != []
    ensures Join(parts, separator) == if |parts| == 1 then parts[0] else parts[0] + separator + Join(parts[1..], separator)
  {
  }

  lemma Reassociated(a: string, b: string, c: string, d: string)
    ensures a + b + c + d == a + (b + (c + d))
  {
  }

  lemma HeadAndRest<T>(xs: seq<T>)
    requires xs != []
    ensures [xs[0]] + xs[1..] == xs
  {
  }

  lemma {:induction false} ReadPrintedTuples(objects: seq<ObjectRow>)
    requires objects != []
    ensures ReadTuples(ListBody(objects)) == Some(objects)
  {
    if |objects| == 1 {
      ReadLast(objects[0]);
      assert objects == [objects[0]];
    } else {
      ReadPrintedTuples(objects[1..]);
      ReadBefore(objects[0], ListBody(objects[1..]), objects[1..]);
      HeadAndRest(objects);
    }
  }

  /** The printed manifest determines the list of schema objects. */
  lemma RepresentationReadsBack(objects: seq<ObjectRow>)
    ensures Read(Representation(objects)) == Some(objects)
  {
    if objects != [] {
      ReadPrintedTuples(objects);
      JoinedIsBody(objects);
      var body := ListBody(objects);
      assert Representation(objects) == "[" + body;
      assert ("[" + body)[1..] == body;
      assert body[0] == '(' by { assert Tuples(objects)[0] == Tuple(objects[0]); }
      assert "[]"[1] == ']' && ("[" + body)[1] == '(';
    }
  }

  lemma DistinctSchemasPrintDifferently(left: seq<ObjectRow>, right: seq<ObjectRow>)
    ensures Representation(left) == Representation(right) <==> left == right
  {
    RepresentationReadsBack(left);
    RepresentationReadsBack(right);
  }
}
