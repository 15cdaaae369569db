/** The one-off converter from a COPY-format table dump to a single INSERT
    statement (convert_dump.py). */
module ConvertDump {

  import opened Wrappers
  import opened Strings

  const TableName := "repair_jobs_new"
  const Columns := ["id", "created_at", "status", "repair_level", "completed_date", "technician",
                    "was_split", "pause", "order_id", "jobs_temp", "job_id"]

  /** The first line written (line 35). */
  function Header(): string {
    "INSERT INTO public." + TableName + " (" + Join(Columns, ", ") + ") VALUES\n"
  }

  predicate AllDigits(s: string) {
    forall i :: 0 <= i < |s| ==> '0' <= s[i] <= '9'
  }

  /** `re.match(r"^\d+$", field)`: one or more digits, where `$` also
      accepts a single newline at the very end. */
  predicate DigitField(f: string) {
    (|f| > 0 && AllDigits(f)) || (|f| > 1 && f[|f| - 1] == '\n' && AllDigits(f[..|f| - 1]))
  }

  /** What one field becomes in the VALUES tuple. */
  datatype Item = Null | Number(digits: string) | Quoted(text: string)

  /** Lines 25-30: `\N` is NULL, a digit field stays bare, anything else is
      put between single quotes as it is. */
  function FieldItem(field: string): (item: Item)
    ensures item.Null? <==> field == "\\N"
    ensures item.Number? <==> field != "\\N" && DigitField(field)
    ensures item.Number? ==> item.digits == field
    ensures item.Quoted? ==> item.text == field
  {
    if field == "\\N" then Null
    else if DigitField(field) then Number(field)
    else Quoted(field)
  }

  function ItemText(item: Item): string {
    match item
    case Null => "NULL"
    case Number(d) => d
    case Quoted(t) => "'" + t + "'"
  }

  /** The field an item was made from. */
  function FieldOfItem(item: Item): string {
    match item
    case Null => "\\N"
    case Number(d) => d
    case Quoted(t) => t
  }

  lemma FieldItemInverse(field: string)
    ensures FieldOfItem(FieldItem(field)) == field
  {
  }

  function FieldItems(fields: seq<string>): (items: seq<Item>)
    ensures |items| == |fields|
  {
    seq(|fields|, i requires 0 <= i < |fields| => FieldItem(fields[i]))
  }

  function ItemTexts(items: seq<Item>): (texts: seq<string>)
    ensures |texts| == |items|
  {
    seq(|items|, i requires 0 <= i < |items| => ItemText(items[i]))
  }

  /** The field list of a data line: the stripped line split at tabs (line 20). */
  function LineFields(line: string): seq<string> {
    Split(PyStrip(line), '\t')
  }

  /** A dump line that carries no row: the pg_dump banner, a blank line or
      the end-of-data marker (line 16). */
  predicate Skipped(line: string) {
    HasPrefix(line, "pg_dump") || PyStrip(line) == "" || PyStrip(line) == "\\."
  }

  /** convert_line_to_values (lines 14-31) as a function. */
  function ConvertLine(line: string): Option<string> {
    if Skipped(line) then None
    else Some("(" + Join(ItemTexts(FieldItems(LineFields(line))), ", ") + ")")
  }

  /** convert_line_to_values, with the loop over the fields. */
  method ConvertLineToValues(line: string) returns (r: Option<string>)
    ensures r == ConvertLine(line)
  {
    var stripped := PyStrip(line);
    if HasPrefix(line, "pg_dump") || stripped == "" || stripped == "\\." {
      return None;
    }
    var fields := Split(stripped, '\t');
    var converted: seq<string> := [];
    var i := 0;
    while i < |fields|
      invariant 0 <= i <= |fields|
      invariant converted == ItemTexts(FieldItems(fields[..i]))
    {
      var field := fields[i];
      TextsSnoc(fields, i);
      if field == "\\N" {
        converted := converted + ["NULL"];
      } else if DigitField(field) {
        converted := converted + [field];
      } else {
        converted := converted + ["'" + field + "'"];
      }
      i := i + 1;
    }
    assert fields[..i] == fields;
    return Some("(" + Join(converted, ", ") + ")");
  }

  /** The texts of one more field are those of the fields before it and
      its own. */
  lemma TextsSnoc(fields: seq<string>, i: nat)
    requires i < |fields|
    ensures ItemTexts(FieldItems(fields[..i + 1])) == ItemTexts(FieldItems(fields[..i])) + [ItemText(FieldItem(fields[i]))]
  {
    var a, b := ItemTexts(FieldItems(fields[..i + 1])), ItemTexts(FieldItems(fields[..i])) + [ItemText(FieldItem(fields[i]))];
    forall k | 0 <= k < |a| ensures a[k] == b[k] {
      assert fields[..i + 1][k] == fields[k];
    }
  }

  /** The first index of `c` in `s`. */
  function FindChar(s: string, c: char): (r: Option<nat>)
    ensures r.Some? ==> r.value < |s| && s[r.value] == c && c !in s[..r.value]
    ensures r.None? ==> c !in s
    decreases |s|
  {
    if |s| == 0 then None
    else if s[0] == c then Some(0)
    else match FindChar(s[1..], c)
      case None => None
      case Some(k) => Some(k + 1)
  }

  /** The first `c` of `s` is at k when s[k] is `c` and no earlier
      character is. */
  lemma {:induction false} FindCharAt(s: string, c: char, k: nat)
    requires k < |s| && s[k] == c && forall i :: 0 <= i < k ==> s[i] != c
    ensures FindChar(s, c) == Some(k)
    decreases k
  {
    if k > 0 {
      FindCharAt(s[1..], c, k - 1);
    }
  }

  /** Without `c`, FindChar finds nothing. */
  lemma {:induction false} FindCharNone(s: string, c: char)
    requires forall i :: 0 <= i < |s| ==> s[i] != c
    ensures FindChar(s, c) == None
    decreases |s|
  {
    if |s| > 0 {
      FindCharNone(s[1..], c);
    }
  }

  /** Where the item at the start of `s` ends: after the closing quote of a
      quoted item, otherwise at the first comma or the end. */
  function ItemEnd(s: string): Option<nat>
    requires |s| > 0
  {
    if s[0] == '\'' then
      match FindChar(s[1..], '\'')
      case None => None
      case Some(k) => Some(k + 2)
    else
      match FindChar(s, ',')
      case None => Some(|s|)
      case Some(k) => Some(k)
  }

  function ItemOf(t: string): Option<Item> {
    if |t| >= 2 && t[0] == '\'' && t[|t| - 1] == '\'' then Some(Quoted(t[1..|t| - 1]))
    else if t == "NULL" then Some(Null)
    else if DigitField(t) then Some(Number(t))
    else None
  }

  /** Reads the items back from the text between the parentheses. */
  function DecodeItems(s: string): Option<seq<Item>>
    decreases |s|
  {
    if |s| == 0 then Some([])
    else
      var cut := ItemEnd(s);
      if cut.None? || cut.value > |s| then None
      else
        var item := ItemOf(s[..cut.value]);
        var after := s[cut.value..];
        if item.None? then None
        else if |after| == 0 then Some([item.value])
        else if |after| > 2 && after[..2] == ", " then
          match DecodeItems(after[2..])
          case None => None
          case Some(rest) => Some([item.value] + rest)
        else None
  }

  function DecodeTuple(text: string): Option<seq<Item>> {
    if |text| >= 2 && text[0] == '(' && text[|text| - 1] == ')' then DecodeItems(text[1..|text| - 1])
    else None
  }

  /** Items whose text can be told apart from the separators around them:
      no quote inside a quoted item. */
  predicate Readable(item: Item) {
    match item
    case Null => true
    case Number(d) => DigitField(d)
    case Quoted(t) => '\'' !in t
  }

  lemma DigitFieldPlain(d: string)
    requires DigitField(d)
    ensures ',' !in d && '\'' !in d && |d| > 0 && d[0] != '\''
  {
    if !(|d| > 0 && AllDigits(d)) {
      assert d == d[..|d| - 1] + ['\n'];
    }
  }

  /** A text that starts with an item's text, followed by nothing or a
      comma, is cut where the item's text ends. */
  lemma ItemEndAt(s: string, item: Item)
    requires Readable(item)
    requires |ItemText(item)| <= |s| && s[..|ItemText(item)|] == ItemText(item)
    requires |s| == |ItemText(item)| || s[|ItemText(item)|] == ','
    ensures ItemEnd(s) == Some(|ItemText(item)|)
  {
    var t := ItemText(item);
    assert forall i :: 0 <= i < |t| ==> s[i] == t[i] by {
      forall i | 0 <= i < |t| ensures s[i] == t[i] {
        assert s[..|t|][i] == s[i];
      }
    }
    match item
    case Quoted(x) =>
      forall i | 0 <= i < |x| ensures s[1..][i] != '\'' {
        assert s[1..][i] == t[i + 1] == x[i];
      }
      assert s[1..][|x|] == t[|x| + 1];
      FindCharAt(s[1..], '\'', |x|);
    case Null =>
      TokenEndAt(s, t);
    case Number(d) =>
      DigitFieldPlain(d);
      forall i | 0 <= i < |t| ensures t[i] != ',' {
        assert t[i] in d;
      }
      TokenEndAt(s, t);
  }

  /** An unquoted token without a comma ends at the next comma or the end. */
  lemma TokenEndAt(s: string, t: string)
    requires |t| > 0 && t[0] != '\'' && forall i :: 0 <= i < |t| ==> t[i] != ','
    requires |t| <= |s| && forall i :: 0 <= i < |t| ==> s[i] == t[i]
    requires |s| == |t| || s[|t|] == ','
    ensures ItemEnd(s) == Some(|t|)
  {
    if |s| == |t| {
      FindCharNone(s, ',');
    } else {
      FindCharAt(s, ',', |t|);
    }
  }

  lemma ItemOfText(item: Item)
    requires Readable(item)
    ensures ItemOf(ItemText(item)) == Some(item)
  {
    match item
    case Quoted(x) =>
      assert ItemText(item)[1..|ItemText(item)| - 1] == x;
    case Null =>
    case Number(d) =>
      DigitFieldPlain(d);
  }

  /** Joining readable items with ", " and reading them back gives the items. */
  lemma {:induction false} DecodeJoin(items: seq<Item>)
    requires forall i :: 0 <= i < |items| ==> Readable(items[i])
    ensures DecodeItems(Join(ItemTexts(items), ", ")) == Some(items)
    decreases |items|
  {
    var texts := ItemTexts(items);
    if |items| == 1 {
      DecodeOne(items[0]);
      assert texts == [ItemText(items[0])];
      assert items == [items[0]];
    } else if |items| > 1 {
      assert texts[1..] == ItemTexts(items[1..]);
      DecodeJoin(items[1..]);
      NonEmptyText(items[1]);
      JoinHeadLength(texts[1..], ", ");
      var rest := Join(texts[1..], ", ");
      assert Join(texts, ", ") == texts[0] + ", " + rest;
      ConcatSlices(texts[0], ", ", rest);
      DecodeHead(Join(texts, ", "), rest, items[0], items[1..]);
      assert [items[0]] + items[1..] == items;
    }
  }

  /** An item's text, ", " and the text of further items read back as the
      item followed by those items. */
  lemma DecodeHead(s: string, rest: string, item: Item, items: seq<Item>)
    requires Readable(item) && |s| == |ItemText(item)| + 2 + |rest|
    requires s[..|ItemText(item)|] == ItemText(item)
    requires s[|ItemText(item)|..|ItemText(item)| + 2] == ", "
    requires s[|ItemText(item)| + 2..] == rest
    requires |rest| > 0 && DecodeItems(rest) == Some(items)
    ensures DecodeItems(s) == Some([item] + items)
  {
    var n := |ItemText(item)|;
    assert s[n] == ',' by {
      assert s[n..n + 2][0] == s[n];
    }
    ItemEndAt(s, item);
    ItemOfText(item);
    DecodeStep(s, n, item, items);
  }

  /** A readable item is written with at least one character. */
  lemma NonEmptyText(item: Item)
    requires Readable(item)
    ensures |ItemText(item)| > 0
  {
    match item
    case Number(d) => DigitFieldPlain(d);
    case Null =>
    case Quoted(_) =>
  }

  /** A join is at least as long as its first part. */
  lemma JoinHeadLength(parts: seq<string>, sep: string)
    requires |parts| > 0
    ensures |Join(parts, sep)| >= |parts[0]|
  {
  }

  /** One readable item's text reads back as that item. */
  lemma DecodeOne(item: Item)
    requires Readable(item)
    ensures DecodeItems(ItemText(item)) == Some([item])
  {
    var t := ItemText(item);
    ItemOfText(item);
    NonEmptyText(item);
    ItemEndAt(t, item);
    assert t[..|t|] == t;
  }

  /** The pieces of a + b + c. */
  lemma ConcatSlices(a: string, b: string, c: string)
    ensures (a + b + c)[..|a|] == a && (a + b + c)[|a|..|a| + |b|] == b && (a + b + c)[|a| + |b|..] == c
  {
  }

  /** DecodeItems on an item cut at n and followed by ", " and more items. */
  lemma DecodeStep(s: string, n: nat, item: Item, items: seq<Item>)
    requires |s| > n + 2 && ItemEnd(s) == Some(n) && s[n..n + 2] == ", "
    requires ItemOf(s[..n]) == Some(item) && DecodeItems(s[n + 2..]) == Some(items)
    ensures DecodeItems(s) == Some([item] + items)
  {
    assert s[n..][..2] == s[n..n + 2];
    assert s[n..][2..] == s[n + 2..];
  }

  /** A row line whose fields hold no single quote can be read back from its
      tuple: the items come back in order, one per field, and give back the
      fields, which joined with tabs are the stripped line. */
  lemma ConvertLineRoundTrip(line: string)
    requires !Skipped(line)
    requires forall i :: 0 <= i < |LineFields(line)| ==> '\'' !in LineFields(line)[i]
    ensures var items := DecodeTuple(ConvertLine(line).value);
      items == Some(FieldItems(LineFields(line)))
      && seq(|items.value|, i requires 0 <= i < |items.value| => FieldOfItem(items.value[i])) == LineFields(line)
      && Join(LineFields(line), "\t") == PyStrip(line)
  {
    var fields := LineFields(line);
    var items := FieldItems(fields);
    forall i | 0 <= i < |items| ensures Readable(items[i]) {
      assert items[i] == FieldItem(fields[i]);
    }
    DecodeJoin(items);
    DecodeParens(Join(ItemTexts(items), ", "));
    JoinSplit(PyStrip(line), '\t');
  }

  /** DecodeTuple takes off the parentheses ConvertLine puts around the items. */
  lemma DecodeParens(body: string)
    ensures DecodeTuple("(" + body + ")") == DecodeItems(body)
  {
    assert ("(" + body + ")")[1..|"(" + body + ")"| - 1] == body;
  }

  /** A line that neither starts nor ends with white space is its own strip. */
  lemma StripUnspaced(s: string)
    requires |s| > 0 && !PySpace(s[0]) && !PySpace(s[|s| - 1])
    ensures PyStrip(s) == s
  {
  }

  /** A quoted field: neither NULL nor a number. */
  predicate Text(f: string) {
    f != "\\N" && !DigitField(f)
  }

  /** Because quotes are not escaped, two different row lines give the same
      tuple: a field holding `x', 'y` reads like the two fields x and y. */
  lemma QuotesNotEscaped(x: string, y: string)
    requires |x| > 0 && |y| > 0 && x[0] != 'p' && !PySpace(x[0]) && !PySpace(y[|y| - 1])
    requires '\t' !in x && '\t' !in y && Text(x) && Text(y)
    ensures x + "', '" + y != x + "\t" + y
    ensures ConvertLine(x + "', '" + y) == ConvertLine(x + "\t" + y)
  {
    var one, two := x + "', '" + y, x + "\t" + y;
    assert one[|x|] != two[|x|];
    QuotedLine(x, y);
    TwoFieldLine(x, y);
    QuotedPair(x, y);
  }

  /** The line with the quote-comma-quote is one quoted field. */
  lemma QuotedLine(x: string, y: string)
    requires |x| > 0 && |y| > 0 && x[0] != 'p' && !PySpace(x[0]) && !PySpace(y[|y| - 1])
    requires '\t' !in x && '\t' !in y
    ensures ConvertLine(x + "', '" + y) == Some("(" + ("'" + (x + "', '" + y) + "'") + ")")
  {
    var one := x + "', '" + y;
    assert one[0] == x[0] && one[|one| - 1] == y[|y| - 1];
    assert '\t' !in one by {
      assert one == x + ("', '" + y);
    }
    assert one[|x|] == '\'';
    QuoteIsText(one, |x|);
    OneFieldLine(one);
  }

  /** Quoting x', 'y gives the two quoted items x and y joined by ", ". */
  lemma QuotedPair(x: string, y: string)
    ensures "'" + (x + "', '" + y) + "'" == "'" + x + "'" + ", " + ("'" + y + "'")
  {
  }

  lemma QuoteIsText(s: string, i: nat)
    requires i < |s| - 1 && s[i] == '\''
    ensures Text(s)
  {
    assert s[..|s| - 1][i] == '\'';
  }

  lemma OneFieldLine(f: string)
    requires |f| > 1 && f[0] != 'p' && !PySpace(f[0]) && !PySpace(f[|f| - 1])
    requires '\t' !in f && Text(f) && f != "\\."
    ensures ConvertLine(f) == Some("(" + ("'" + f + "'") + ")")
  {
    StripUnspaced(f);
    assert !Skipped(f);
    SplitWithoutSep(f, '\t');
    assert LineFields(f) == [f];
    assert ItemTexts(FieldItems([f])) == ["'" + f + "'"];
    assert Join(["'" + f + "'"], ", ") == "'" + f + "'";
  }

  lemma TwoFieldLine(x: string, y: string)
    requires |x| > 0 && |y| > 0 && x[0] != 'p' && !PySpace(x[0]) && !PySpace(y[|y| - 1])
    requires '\t' !in x && '\t' !in y && Text(x) && Text(y)
    ensures ConvertLine(x + "\t" + y) == Some("(" + ("'" + x + "'" + ", " + ("'" + y + "'")) + ")")
  {
    var two := x + "\t" + y;
    assert two[0] == x[0] && two[|two| - 1] == y[|y| - 1];
    StripUnspaced(two);
    assert !Skipped(two);
    assert two == x + ['\t'] + y;
    SplitAtSep(x, '\t', y);
    SplitWithoutSep(y, '\t');
    assert LineFields(two) == [x, y];
    assert ItemTexts(FieldItems([x, y])) == ["'" + x + "'", "'" + y + "'"];
    assert Join(["'" + x + "'", "'" + y + "'"], ", ") == "'" + x + "'" + ", " + ("'" + y + "'");
  }

  /** The tuples of the row lines, in file order (lines 38-41). */
  function Values(lines: seq<string>): seq<string> {
    Collect(lines, ConvertLine)
  }

  /** The results `convert` gives, in order, for the lines it keeps. */
  function Collect(lines: seq<string>, convert: string -> Option<string>): seq<string>
    decreases |lines|
  {
    if |lines| == 0 then []
    else
      var rest := Collect(lines[..|lines| - 1], convert);
      match convert(lines[|lines| - 1])
      case None => rest
      case Some(v) => rest + [v]
  }

  lemma {:induction false} CollectMembers(lines: seq<string>, v: string, convert: string -> Option<string>)
    ensures v in Collect(lines, convert) <==> exists l :: l in lines && convert(l) == Some(v)
    decreases |lines|
  {
    if |lines| > 0 {
      var init, last := lines[..|lines| - 1], lines[|lines| - 1];
      CollectMembers(init, v, convert);
      assert lines == init + [last];
      if v in Collect(lines, convert) {
        if convert(last) == Some(v) {
          assert last in lines;
        } else {
          assert v in Collect(init, convert);
          var l :| l in init && convert(l) == Some(v);
          assert l in lines;
        }
      }
      if exists l :: l in lines && convert(l) == Some(v) {
        var l :| l in lines && convert(l) == Some(v);
        if l != last {
          assert l in init;
        }
      }
    }
  }

  /** Collecting one more line adds that line's result, if any. */
  lemma CollectSnoc(lines: seq<string>, i: nat, convert: string -> Option<string>)
    requires i < |lines|
    ensures Collect(lines[..i + 1], convert)
            == Collect(lines[..i], convert) + (match convert(lines[i]) case None => [] case Some(v) => [v])
  {
    assert lines[..i + 1][..i] == lines[..i];
    var rest := Collect(lines[..i], convert);
    assert rest + [] == rest;
  }

  /** A tuple is in the output exactly when some line of the dump converts to it. */
  lemma ValuesMembers(lines: seq<string>, v: string)
    ensures v in Values(lines) <==> exists l :: l in lines && ConvertLine(l) == Some(v)
  {
    CollectMembers(lines, v, ConvertLine);
  }

  lemma {:induction false} CollectAppend(a: seq<string>, b: seq<string>, convert: string -> Option<string>)
    ensures Collect(a + b, convert) == Collect(a, convert) + Collect(b, convert)
    decreases |b|
  {
    if |b| == 0 {
      assert a + b == a;
    } else {
      var init := b[..|b| - 1];
      CollectAppend(a, init, convert);
      assert (a + b)[..|a + b| - 1] == a + init;
      assert (a + b)[|a + b| - 1] == b[|b| - 1];
    }
  }

  /** The dump is converted line by line: the tuples of a longer dump extend
      those of its beginning. */
  lemma ValuesAppend(a: seq<string>, b: seq<string>)
    ensures Values(a + b) == Values(a) + Values(b)
  {
    CollectAppend(a, b, ConvertLine);
  }

  /** main (lines 33-43): the text written to the output file for the dump's
      lines. Reading and writing the files is not modelled. */
  method ConvertDumpLines(lines: seq<string>) returns (out: string)
    ensures out == Header() + Join(Values(lines), ",\n") + ";\n"
  {
    out := Header();
    var values := CollectValues(lines);
    out := out + (Join(values, ",\n") + ";\n");
  }

  /** Lines 36-41: the loop over the dump's lines, keeping each tuple. */
  method CollectValues(lines: seq<string>) returns (values: seq<string>)
    ensures values == Values(lines)
  {
    values := [];
    var i := 0;
    while i < |lines|
      invariant 0 <= i <= |lines|
      invariant values == Values(lines[..i])
    {
      var converted := ConvertLineToValues(lines[i]);
      CollectSnoc(lines, i, ConvertLine);
      if converted.Some? {
        values := values + [converted.value];
      }
      i := i + 1;
    }
    assert lines[..i] == lines;
  }
}
