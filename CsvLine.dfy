// `parseCSVLine`: the quote-aware splitter of one CSV line into trimmed fields.
// A `"` toggles the quoted state, except that inside quotes `""` stands for
// one `"`; a comma outside quotes ends the field.

module CsvLine {
  import opened JsString

  /** The splitter's state machine from position `i` on, with the fields
      `values` finished so far, the field `current` being read and the quoted
      state `inQuotes`: the fields of the whole line. */
  function ScanFrom(line: string, i: nat, values: seq<string>, current: string, inQuotes: bool): (r: seq<string>)
    requires i <= |line|
    ensures |r| > |values| && r[..|values|] == values
    decreases |line| - i
  {
    if i == |line| then values + [Trim(current)]
    else if line[i] == '"' then
      if inQuotes && i + 1 < |line| && line[i + 1] == '"' then
        ScanFrom(line, i + 2, values, current + ['"'], inQuotes)
      else
        ScanFrom(line, i + 1, values, current, !inQuotes)
    else if line[i] == ',' && !inQuotes then
      ScanFrom(line, i + 1, values + [Trim(current)], "", inQuotes)
    else
      ScanFrom(line, i + 1, values, current + [line[i]], inQuotes)
  }

  /** The fields `parseCSVLine` returns for `line`. */
  function Fields(line: string): seq<string>
  {
    ScanFrom(line, 0, [], "", false)
  }

  /** `parseCSVLine`, the loop itself. */
  method ParseCSVLine(line: string) returns (values: seq<string>)
    ensures values == Fields(line)
  {
    values := [];
    var current := "";
    var inQuotes := false;
    var i := 0;
    while i < |line|
      invariant i <= |line|
      invariant ScanFrom(line, i, values, current, inQuotes) == Fields(line)
      decreases |line| - i
    {
      var c := line[i];
      if c == '"' {
        if inQuotes && i + 1 < |line| && line[i + 1] == '"' {
          current := current + ['"'];
          i := i + 1;
        } else {
          inQuotes := !inQuotes;
        }
      } else if c == ',' && !inQuotes {
        values := values + [Trim(current)];
        current := "";
      } else {
        current := current + [c];
      }
      i := i + 1;
    }
    values := values + [Trim(current)];
  }

  // ---------------------------------------------------------------------
  // Shape of the result

  /** Every field comes out trimmed. */
  lemma {:induction false} ScanTrimmed(line: string, i: nat, values: seq<string>, current: string, inQuotes: bool)
    requires i <= |line|
    requires forall k :: 0 <= k < |values| ==> IsTrimmed(values[k])
    ensures forall k :: 0 <= k < |ScanFrom(line, i, values, current, inQuotes)| ==>
      IsTrimmed(ScanFrom(line, i, values, current, inQuotes)[k])
    decreases |line| - i
  {
    if i == |line| {
    } else if line[i] == '"' {
      if inQuotes && i + 1 < |line| && line[i + 1] == '"' {
        ScanTrimmed(line, i + 2, values, current + ['"'], inQuotes);
      } else {
        ScanTrimmed(line, i + 1, values, current, !inQuotes);
      }
    } else if line[i] == ',' && !inQuotes {
      ScanTrimmed(line, i + 1, values + [Trim(current)], "", inQuotes);
    } else {
      ScanTrimmed(line, i + 1, values, current + [line[i]], inQuotes);
    }
  }

  /** At least one field, each of them trimmed. */
  lemma FieldsShape(line: string)
    ensures |Fields(line)| >= 1
    ensures forall k :: 0 <= k < |Fields(line)| ==> IsTrimmed(Fields(line)[k])
  {
    ScanTrimmed(line, 0, [], "", false);
  }

  lemma {:induction false} CountAppend(s: string, c: char, q: char)
    ensures Count(s + [c], q) == Count(s, q) + (if c == q then 1 else 0)
  {
    if |s| > 0 {
      assert (s + [c])[1..] == s[1..] + [c];
      CountAppend(s[1..], c, q);
    }
  }

  /** Whether position `k` of `line` lies outside quotes: an even number of
      `"` precede it. */
  predicate Unquoted(line: string, k: nat)
    requires k <= |line|
  {
    Count(line[..k], '"') % 2 == 0
  }

  /** The commas of `line[i..]` that lie outside quotes. */
  function CommasFrom(line: string, i: nat): nat
    requires i <= |line|
    decreases |line| - i
  {
    if i == |line| then 0
    else (if line[i] == ',' && Unquoted(line, i) then 1 else 0) + CommasFrom(line, i + 1)
  }

  lemma QuoteParityStep(line: string, i: nat)
    requires i < |line|
    ensures Count(line[..i + 1], '"') == Count(line[..i], '"') + (if line[i] == '"' then 1 else 0)
  {
    assert line[..i + 1] == line[..i] + [line[i]];
    CountAppend(line[..i], line[i], '"');
  }

  /** The state machine's quoted state is the parity of the quotes read so
      far (a `""` escape reads two), so each comma outside quotes adds one
      field. */
  lemma {:induction false} ScanCount(line: string, i: nat, values: seq<string>, current: string, inQuotes: bool)
    requires i <= |line|
    requires inQuotes == !Unquoted(line, i)
    ensures |ScanFrom(line, i, values, current, inQuotes)| == |values| + CommasFrom(line, i) + 1
    decreases |line| - i
  {
    if i < |line| {
      QuoteParityStep(line, i);
      if line[i] == '"' {
        if inQuotes && i + 1 < |line| && line[i + 1] == '"' {
          QuoteParityStep(line, i + 1);
          ScanCount(line, i + 2, values, current + ['"'], inQuotes);
        } else {
          ScanCount(line, i + 1, values, current, !inQuotes);
        }
      } else if line[i] == ',' && !inQuotes {
        ScanCount(line, i + 1, values + [Trim(current)], "", inQuotes);
      } else {
        ScanCount(line, i + 1, values, current + [line[i]], inQuotes);
      }
    }
  }

  /** One field more than there are commas outside quotes. */
  lemma FieldCount(line: string)
    ensures |Fields(line)| == CommasFrom(line, 0) + 1
  {
    assert line[..0] == [];
    ScanCount(line, 0, [], "", false);
  }

  // ---------------------------------------------------------------------
  // Lines without quotes

  function TrimAll(parts: seq<string>): (r: seq<string>)
    ensures |r| == |parts|
    ensures forall k :: 0 <= k < |parts| ==> r[k] == Trim(parts[k])
  {
    seq(|parts|, k requires 0 <= k < |parts| => Trim(parts[k]))
  }

  /** A field prefix without a comma glues onto the first piece of the split. */
  lemma {:induction false} SplitPrefix(p: string, t: string, sep: char)
    requires sep !in p
    ensures Split(p + t, sep) == [p + Split(t, sep)[0]] + Split(t, sep)[1..]
  {
    if |p| > 0 {
      assert (p + t)[1..] == p[1..] + t;
      SplitPrefix(p[1..], t, sep);
      assert [p[0]] + (p[1..] + Split(t, sep)[0]) == p + Split(t, sep)[0];
    } else {
      assert p + t == t;
      assert p + Split(t, sep)[0] == Split(t, sep)[0];
      assert [Split(t, sep)[0]] + Split(t, sep)[1..] == Split(t, sep);
    }
  }

  lemma SplitNoSep(p: string, sep: char)
    requires sep !in p
    ensures Split(p, sep) == [p]
  {
    SplitPrefix(p, "", sep);
    assert p + "" == p;
    assert p + Split("", sep)[0] == p;
  }

  lemma SplitAtSep(p: string, rest: string, sep: char)
    requires sep !in p
    ensures Split(p + ([sep] + rest), sep) == [p] + Split(rest, sep)
  {
    SplitPrefix(p, [sep] + rest, sep);
    assert ([sep] + rest)[1..] == rest;
    var parts := Split([sep] + rest, sep);
    assert parts == [""] + Split(rest, sep);
    assert parts[1..] == Split(rest, sep);
    assert p + parts[0] == p;
  }

  lemma TrimAllCons(p: string, parts: seq<string>)
    ensures TrimAll([p] + parts) == [Trim(p)] + TrimAll(parts)
  {
  }

  lemma CommaStep(values: seq<string>, current: string, rest: string)
    requires ',' !in current
    ensures values + [Trim(current)] + TrimAll(Split(rest, ','))
         == values + TrimAll(Split(current + ([','] + rest), ','))
  {
    var parts := Split(rest, ',');
    var trimmed := TrimAll(parts);
    SplitAtSep(current, rest, ',');
    TrimAllCons(current, parts);
    calc {
      values + TrimAll(Split(current + ([','] + rest), ','));
      values + TrimAll([current] + parts);
      values + ([Trim(current)] + trimmed);
      { assert values + ([Trim(current)] + trimmed) == (values + [Trim(current)]) + trimmed; }
      values + [Trim(current)] + trimmed;
    }
  }

  lemma {:induction false} ScanNoQuote(line: string, i: nat, values: seq<string>, current: string)
    requires i <= |line|
    requires '"' !in line && ',' !in current
    ensures ScanFrom(line, i, values, current, false) == values + TrimAll(Split(current + line[i..], ','))
    decreases |line| - i
  {
    if i == |line| {
      assert current + line[i..] == current;
      SplitNoSep(current, ',');
    } else {
      var rest := line[i + 1..];
      assert line[i..] == [line[i]] + rest;
      assert line[i] != '"' by {
        assert line[i] in line;
      }
      if line[i] == ',' {
        ScanNoQuote(line, i + 1, values + [Trim(current)], "");
        assert "" + rest == rest;
        CommaStep(values, current, rest);
      } else {
        var longer := current + [line[i]];
        assert ',' !in longer;
        ScanNoQuote(line, i + 1, values, longer);
        assert longer + rest == current + line[i..];
        calc {
          ScanFrom(line, i, values, current, false);
          ScanFrom(line, i + 1, values, longer, false);
          values + TrimAll(Split(longer + line[i + 1..], ','));
        }
      }
    }
  }

  /** Without quote characters the splitter is `split(',')` with every piece
      trimmed. */
  lemma NoQuoteIsSplit(line: string)
    requires '"' !in line
    ensures Fields(line) == TrimAll(Split(line, ','))
  {
    ScanNoQuote(line, 0, [], "");
    assert "" + line[0..] == line;
  }

  // ---------------------------------------------------------------------
  // Quote characters in the fields

  /** The number of `""` escapes the splitter consumes from position `i` on,
      in the quoted state `inQuotes`: a `"` inside quotes that is followed by
      another `"`. */
  function Escapes(line: string, i: nat, inQuotes: bool): nat
    requires i <= |line|
    decreases |line| - i
  {
    if i == |line| then 0
    else if line[i] == '"' then
      if inQuotes && i + 1 < |line| && line[i + 1] == '"' then 1 + Escapes(line, i + 2, inQuotes)
      else Escapes(line, i + 1, !inQuotes)
    else if line[i] == ',' && !inQuotes then Escapes(line, i + 1, inQuotes)
    else Escapes(line, i + 1, inQuotes)
  }

  /** The number of `"` characters in all the fields. */
  function QuoteTotal(fields: seq<string>): nat
  {
    if |fields| == 0 then 0
    else QuoteTotal(fields[..|fields| - 1]) + Count(fields[|fields| - 1], '"')
  }

  lemma QuoteTotalAppend(fields: seq<string>, f: string)
    ensures QuoteTotal(fields + [f]) == QuoteTotal(fields) + Count(f, '"')
  {
    assert (fields + [f])[..|fields|] == fields;
  }

  /** Trimming removes white space only, never a `"`. */
  lemma TrimKeepsQuotes(s: string)
    ensures Count(Trim(s), '"') == Count(s, '"')
  {
    var r := Trim(s);
    var lead, tail := s[..Lead(s)], s[Lead(s) + |r|..];
    assert s == lead + r + tail;
    CountConcat(lead + r, tail, '"');
    CountConcat(lead, r, '"');
    assert '"' !in lead by {
      assert forall k :: 0 <= k < |lead| ==> IsSpace(lead[k]);
    }
    assert '"' !in tail by {
      assert forall k :: 0 <= k < |tail| ==> IsSpace(tail[k]);
    }
    CountZero(lead, '"');
    CountZero(tail, '"');
  }

  /** From any state, the `"` characters in the fields are those already
      read plus one per escape still to come. */
  lemma {:induction false} ScanQuotes(line: string, i: nat, values: seq<string>, current: string, inQuotes: bool)
    requires i <= |line|
    ensures QuoteTotal(ScanFrom(line, i, values, current, inQuotes))
         == QuoteTotal(values) + Count(current, '"') + Escapes(line, i, inQuotes)
    decreases |line| - i
  {
    if i == |line| {
      QuoteTotalAppend(values, Trim(current));
      TrimKeepsQuotes(current);
    } else if line[i] == '"' {
      if inQuotes && i + 1 < |line| && line[i + 1] == '"' {
        ScanQuotes(line, i + 2, values, current + ['"'], inQuotes);
        CountAppend(current, '"', '"');
      } else {
        ScanQuotes(line, i + 1, values, current, !inQuotes);
      }
    } else if line[i] == ',' && !inQuotes {
      ScanQuotes(line, i + 1, values + [Trim(current)], "", inQuotes);
      QuoteTotalAppend(values, Trim(current));
      TrimKeepsQuotes(current);
    } else {
      ScanQuotes(line, i + 1, values, current + [line[i]], inQuotes);
      CountAppend(current, line[i], '"');
    }
  }

  /** Every `"` in the fields comes from exactly one `""` escape read inside
      quotes: a doubled quote gives one `"`, and no other quote character is
      emitted. */
  lemma FieldQuotes(line: string)
    ensures QuoteTotal(Fields(line)) == Escapes(line, 0, false)
  {
    ScanQuotes(line, 0, [], "", false);
  }

  /** Each escape uses up two of the line's quote characters. */
  lemma {:induction false} EscapesBound(line: string, i: nat, inQuotes: bool)
    requires i <= |line|
    ensures 2 * Escapes(line, i, inQuotes) <= Count(line[i..], '"')
    decreases |line| - i
  {
    if i < |line| {
      assert line[i..][1..] == line[i + 1..];
      if line[i] == '"' && inQuotes && i + 1 < |line| && line[i + 1] == '"' {
        EscapesBound(line, i + 2, inQuotes);
        assert line[i + 1..][1..] == line[i + 2..];
      } else if line[i] == '"' {
        EscapesBound(line, i + 1, !inQuotes);
      } else {
        EscapesBound(line, i + 1, inQuotes);
      }
    }
  }

  /** `line` has no `""` pair. */
  predicate NoDoubledQuote(line: string)
  {
    forall k :: 0 <= k < |line| - 1 ==> !(line[k] == '"' && line[k + 1] == '"')
  }

  /** Without a `""` pair there is nothing to escape. */
  lemma {:induction false} EscapesNone(line: string, i: nat, inQuotes: bool)
    requires i <= |line| && NoDoubledQuote(line)
    ensures Escapes(line, i, inQuotes) == 0
    decreases |line| - i
  {
    if i < |line| {
      if line[i] == '"' {
        EscapesNone(line, i + 1, !inQuotes);
      } else {
        EscapesNone(line, i + 1, inQuotes);
      }
    }
  }

  /** No field holds a `"` when the splitter consumes no escape. */
  lemma {:induction false} NoQuoteTotal(fields: seq<string>)
    requires QuoteTotal(fields) == 0
    ensures forall k :: 0 <= k < |fields| ==> '"' !in fields[k]
  {
    if |fields| > 0 {
      var init := fields[..|fields| - 1];
      NoQuoteTotal(init);
      CountZero(fields[|fields| - 1], '"');
      assert forall k :: 0 <= k < |init| ==> fields[k] == init[k];
    }
  }

  /** A line without a `""` pair gives fields without `"`: its quote
      characters only open and close quoted stretches. */
  lemma NoEscapeNoQuoteChar(line: string)
    requires NoDoubledQuote(line)
    ensures forall k :: 0 <= k < |Fields(line)| ==> '"' !in Fields(line)[k]
  {
    FieldQuotes(line);
    EscapesNone(line, 0, false);
    NoQuoteTotal(Fields(line));
  }

  lemma TrimExample()
    ensures Trim(" b ") == "b"
  {
    assert " b "[1..] == "b ";
    assert Lead("b ") == 0;
    assert Lead(" b ") == 1;
    assert "b "[..1] == "b";
    assert Body("b") == 1;
    assert Body("b ") == 1;
    assert " b "[1..][..1] == "b";
  }

  lemma ExampleSpacesTail()
    ensures ScanFrom("a, b ,c", 4, ["a"], " b", false) == ["a", "b", "c"]
  {
    var line := "a, b ,c";
    TrimExample();
    TrimmedIsFixed("c");
    calc {
      ScanFrom(line, 4, ["a"], " b", false);
    == { assert " b" + [' '] == " b "; }
      ScanFrom(line, 5, ["a"], " b ", false);
    == { assert ["a"] + [Trim(" b ")] == ["a", "b"]; }
      ScanFrom(line, 6, ["a", "b"], "", false);
    == { assert "" + ['c'] == "c"; }
      ScanFrom(line, 7, ["a", "b"], "c", false);
    == { assert ["a", "b"] + [Trim("c")] == ["a", "b", "c"]; }
      ["a", "b", "c"];
    }
  }

  lemma ExampleSpacesHead()
    ensures Fields("a, b ,c") == ScanFrom("a, b ,c", 2, ["a"], "", false)
  {
    var line := "a, b ,c";
    TrimmedIsFixed("a");
    calc {
      Fields(line);
    == { assert "" + ['a'] == "a"; }
      ScanFrom(line, 1, [], "a", false);
    == { assert [] + [Trim("a")] == ["a"]; }
      ScanFrom(line, 2, ["a"], "", false);
    }
  }

  /** Spaces around the fields are dropped. */
  lemma ExampleSpaces()
    ensures Fields("a, b ,c") == ["a", "b", "c"]
  {
    var line := "a, b ,c";
    ExampleSpacesHead();
    ExampleSpacesTail();
    calc {
      Fields(line);
      ScanFrom(line, 2, ["a"], "", false);
    == { assert "" + [' '] == " "; }
      ScanFrom(line, 3, ["a"], " ", false);
    == { assert " " + ['b'] == " b"; }
      ScanFrom(line, 4, ["a"], " b", false);
      ["a", "b", "c"];
    }
  }

  lemma ExampleQuotedCommaTail()
    ensures ScanFrom("\"x,y\",z", 4, [], "x,y", true) == ["x,y", "z"]
  {
    var line := "\"x,y\",z";
    TrimmedIsFixed("x,y");
    TrimmedIsFixed("z");
    calc {
      ScanFrom(line, 4, [], "x,y", true);
      ScanFrom(line, 5, [], "x,y", false);
      ScanFrom(line, 6, ["x,y"], "", false);
    == { assert "" + ['z'] == "z"; }
      ScanFrom(line, 7, ["x,y"], "z", false);
      ["x,y", "z"];
    }
  }

  /** A quoted comma stays in its field. */
  lemma ExampleQuotedComma()
    ensures Fields("\"x,y\",z") == ["x,y", "z"]
  {
    var line := "\"x,y\",z";
    ExampleQuotedCommaTail();
    calc {
      Fields(line);
      ScanFrom(line, 1, [], "", true);
    == { assert "" + ['x'] == "x"; }
      ScanFrom(line, 2, [], "x", true);
    == { assert "x" + [','] == "x,"; }
      ScanFrom(line, 3, [], "x,", true);
    == { assert "x," + ['y'] == "x,y"; }
      ScanFrom(line, 4, [], "x,y", true);
      ["x,y", "z"];
    }
  }

  lemma ExampleDoubledQuoteTail()
    ensures ScanFrom("\"a\"\"b\",c", 5, [], "a\"b", true) == ["a\"b", "c"]
  {
    var line := "\"a\"\"b\",c";
    TrimmedIsFixed("a\"b");
    TrimmedIsFixed("c");
    calc {
      ScanFrom(line, 5, [], "a\"b", true);
      ScanFrom(line, 6, [], "a\"b", false);
      ScanFrom(line, 7, ["a\"b"], "", false);
    == { assert "" + ['c'] == "c"; }
      ScanFrom(line, 8, ["a\"b"], "c", false);
      ["a\"b", "c"];
    }
  }

  /** A doubled quote inside quotes gives one `"`. */
  lemma ExampleDoubledQuote()
    ensures Fields("\"a\"\"b\",c") == ["a\"b", "c"]
  {
    var line := "\"a\"\"b\",c";
    ExampleDoubledQuoteTail();
    calc {
      Fields(line);
      ScanFrom(line, 1, [], "", true);
    == { assert "" + ['a'] == "a"; }
      ScanFrom(line, 2, [], "a", true);
    == { assert "a" + ['"'] == "a\""; }
      ScanFrom(line, 4, [], "a\"", true);
    == { assert "a\"" + ['b'] == "a\"b"; }
      ScanFrom(line, 5, [], "a\"b", true);
      ["a\"b", "c"];
    }
  }
}
