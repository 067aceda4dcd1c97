/** The two layouts of a printed record say the same thing. */
module LogLayouts {
  import opened Decimal
  import opened LogPrinter
  import opened LogReader
  import opened LogRoundTrip

  /** Remove the white space outside string literals. */
  function Minify(s: string, inString: bool): string {
    if s == [] then []
    else if !inString then
      (if IsSpace(s[0]) then [] else [s[0]]) + Minify(s[1..], s[0] == '"')
    else if s[0] == '\\' && |s| > 1 then s[..2] + Minify(s[2..], true)
    else [s[0]] + Minify(s[1..], s[0] != '"')
  }

  lemma MinifyInside(c: char, more: string)
    ensures Minify(['\\', c] + more, true) == ['\\', c] + Minify(more, true)
    ensures c != '\\' && c != '"' ==> Minify([c] + more, true) == [c] + Minify(more, true)
  {
    assert (['\\', c] + more)[..2] == ['\\', c] && (['\\', c] + more)[2..] == more;
    assert ([c] + more)[1..] == more;
  }

  lemma {:induction false} MinifyLiteral(s: string, tail: string)
    ensures Minify(Escape(s) + ("\"" + tail), true) == Escape(s) + ("\"" + Minify(tail, false))
  {
    var (rest, kept) := ("\"" + tail, "\"" + Minify(tail, false));
    if s == [] {
      assert Escape(s) + rest == rest && Escape(s) + kept == kept;
      assert rest[1..] == tail;
    } else {
      MinifyLiteral(s[1..], tail);
      MinifyInside(s[0], Escape(s[1..]) + rest);
      EscapeSplit(s, rest);
      EscapeSplit(s, kept);
    }
  }

  lemma EscapeSplit(s: string, rest: string)
    requires s != []
    ensures Escape(s) + rest
         == (if s[0] == '"' || s[0] == '\\' then ['\\', s[0]] else [s[0]]) + (Escape(s[1..]) + rest)
  {
  }

  lemma MinifyQuote(s: string, tail: string)
    ensures Minify(Quote(s) + tail, false) == Quote(s) + Minify(tail, false)
  {
    QuoteSplit(s, tail);
    QuoteSplit(s, Minify(tail, false));
    MinifyLiteral(s, tail);
    var inner := Escape(s) + ("\"" + tail);
    assert ("\"" + inner)[1..] == inner;
  }

  lemma MinifyPlain(c: char, tail: string)
    requires !IsSpace(c) && c != '"'
    ensures Minify([c] + tail, false) == [c] + Minify(tail, false)
  {
    assert ([c] + tail)[1..] == tail;
  }

  lemma MinifyIndent(mode: JsonFormat, c: char, tail: string)
    requires IsSpace(c)
    ensures Minify(Indent(mode, [c]) + tail, false) == Minify(tail, false)
  {
    if mode.FORMATTED? {
      assert ([c] + tail)[1..] == tail;
    } else {
      assert Indent(mode, [c]) + tail == tail;
    }
  }

  lemma {:induction false} MinifyDigits(s: string, tail: string)
    requires AllDigits(s)
    ensures Minify(s + tail, false) == s + Minify(tail, false)
  {
    if s == [] {
      assert s + tail == tail;
    } else {
      MinifyDigits(s[1..], tail);
      assert s + tail == [s[0]] + (s[1..] + tail);
      MinifyPlain(s[0], s[1..] + tail);
    }
  }

  lemma MinifyNode(node: Node, tail: string)
    ensures Minify(NodeText(node) + tail, false) == NodeText(node) + Minify(tail, false)
  {
    match node {
      case Bare(number) => MinifyDigits(Digits(number), tail);
      case Quoted(text) => MinifyQuote(text, tail);
      case Absent => assert "" + tail == tail;
    }
  }

  lemma MinifyEntry(e: Entry, mode: JsonFormat, tail: string)
    ensures Minify(EntryText(e, mode) + tail, false) == EntryText(e, NO_INDENT) + Minify(tail, false)
  {
    var value := NodeText(e.node) + tail;
    var colon := ":" + (Indent(mode, " ") + value);
    LeadSplit(Indent(mode, "\t"), Quote(e.name), ":", Indent(mode, " "), NodeText(e.node), tail);
    MinifyIndent(mode, '\t', Quote(e.name) + colon);
    MinifyQuote(e.name, colon);
    MinifyPlain(':', Indent(mode, " ") + value);
    MinifyIndent(mode, ' ', value);
    MinifyNode(e.node, tail);
    CompactEntry(e, Minify(tail, false));
  }

  lemma CompactEntry(e: Entry, tail: string)
    ensures EntryText(e, NO_INDENT) + tail == Quote(e.name) + (":" + (NodeText(e.node) + tail))
  {
    assert Lead(e.name, NO_INDENT) == Quote(e.name) + ":";
    LeadSplit(Quote(e.name), ":", NodeText(e.node), tail, "", "");
  }

  lemma {:induction false} MinifyBody(entries: seq<Entry>, mode: JsonFormat, tail: string)
    ensures Minify(Body(entries, mode) + tail, false) == Body(entries, NO_INDENT) + Minify(tail, false)
  {
    if entries == [] {
      assert "" + tail == tail;
    } else if |entries| == 1 {
      MinifyEntry(entries[0], mode, tail);
    } else {
      MinifyBody(entries[1..], mode, tail);
      MinifySeparated(entries[0], mode, Body(entries[1..], mode), tail, Body(entries[1..], NO_INDENT));
    }
  }

  lemma MinifySeparated(e: Entry, mode: JsonFormat, body: string, tail: string, compact: string)
    requires Minify(body + tail, false) == compact + Minify(tail, false)
    ensures Minify(EntryText(e, mode) + Separator(mode) + body + tail, false)
         == EntryText(e, NO_INDENT) + Separator(NO_INDENT) + compact + Minify(tail, false)
  {
    var more := Indent(mode, "\n") + (body + tail);
    SeparatorSplit(EntryText(e, mode), mode, body, tail);
    MinifyEntry(e, mode, "," + more);
    MinifyPlain(',', more);
    MinifyIndent(mode, '\n', body + tail);
    CompactSeparator(EntryText(e, NO_INDENT), compact, Minify(tail, false));
  }

  lemma CompactSeparator(a: string, b: string, c: string)
    ensures a + Separator(NO_INDENT) + b + c == a + ("," + (b + c))
  {
    assert Separator(NO_INDENT) == ",";
    LeadSplit(a, ",", b, c, "", "");
  }

  lemma MinifyClosing(mode: JsonFormat)
    ensures Minify(Closing(mode), false) == "}"
  {
    MinifyIndent(mode, '\n', "}\n");
    MinifyPlain('}', "\n");
    assert Minify("\n", false) == "";
    assert "}" + "\n" == "}\n";
  }

  lemma MinifyRecord(entries: seq<Entry>, mode: JsonFormat)
    ensures Minify(RecordText(entries, mode), false) == "{" + (Body(entries, NO_INDENT) + "}")
  {
    var body := Body(entries, mode) + Closing(mode);
    assert RecordText(entries, mode) == "{" + (Indent(mode, "\n") + body);
    MinifyPlain('{', Indent(mode, "\n") + body);
    MinifyIndent(mode, '\n', body);
    MinifyBody(entries, mode, Closing(mode));
    MinifyClosing(mode);
  }

  /** The two layouts differ only in white space outside string literals, and the compact one
      has none but its final line break. */
  lemma LayoutsAgree(entries: seq<Entry>)
    ensures Minify(RecordText(entries, FORMATTED), false) == Minify(RecordText(entries, NO_INDENT), false)
    ensures RecordText(entries, NO_INDENT) == Minify(RecordText(entries, FORMATTED), false) + "\n"
  {
    MinifyRecord(entries, FORMATTED);
    MinifyRecord(entries, NO_INDENT);
  }

  /** One attribute in each layout: the formatted one has a line of its own, behind a tab. */
  lemma AttributeSpelled(e: Entry)
    ensures Body([e], NO_INDENT) == Quote(e.name) + ":" + NodeText(e.node)
    ensures Body([e], FORMATTED) == "\t" + Quote(e.name) + ": " + NodeText(e.node)
  {
    var name := Quote(e.name);
    assert "" + name == name && name + ":" + "" == name + ":";
    assert "\t" + name + ":" + " " == "\t" + name + ": ";
  }

  /** Neighbours are separated by a comma, and by a comma and a line break. */
  lemma NeighboursSpelled(e: Entry, rest: seq<Entry>)
    requires rest != []
    ensures Body([e] + rest, NO_INDENT) == Body([e], NO_INDENT) + "," + Body(rest, NO_INDENT)
    ensures Body([e] + rest, FORMATTED) == Body([e], FORMATTED) + ",\n" + Body(rest, FORMATTED)
  {
    assert ([e] + rest)[1..] == rest;
    assert Separator(NO_INDENT) == "," && Separator(FORMATTED) == ",\n";
  }

  /** The braces, which the formatted layout puts on lines of their own. */
  lemma BracesSpelled(entries: seq<Entry>)
    ensures RecordText(entries, NO_INDENT) == "{" + Body(entries, NO_INDENT) + "}\n"
    ensures RecordText(entries, FORMATTED) == "{\n" + Body(entries, FORMATTED) + "\n}\n"
    ensures Body([], NO_INDENT) == Body([], FORMATTED) == ""
  {
    assert Opening(NO_INDENT) == "{" && Opening(FORMATTED) == "{\n";
    assert Closing(NO_INDENT) == "}\n" && Closing(FORMATTED) == "\n}\n";
  }
}
