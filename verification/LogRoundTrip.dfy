/** The printer and the reader undo each other, record by record and file by file. */
module LogRoundTrip {
  import opened Decimal
  import opened LogPrinter
  import opened LogReader

  /** The member that a reader should see for an entry. */
  function MemberOf(e: Entry): (string, Json) {
    (e.name,
     match e.node
     case Bare(number) => Number(Digits(number))
     case Quoted(text) => String(text)
     case Absent => Empty)
  }

  function MembersOf(entries: seq<Entry>): seq<(string, Json)> {
    if entries == [] then [] else [MemberOf(entries[0])] + MembersOf(entries[1..])
  }

  /** No character below U+0020. */
  predicate Clean(s: string) {
    forall i | 0 <= i < |s| :: s[i] >= ' '
  }

  predicate Readable(d: Dialect, e: Entry) {
    && (d.rawControls || (Clean(e.name) && (e.node.Quoted? ==> Clean(e.node.text))))
    && (d.emptyValues || !e.node.Absent?)
  }

  predicate AllReadable(d: Dialect, entries: seq<Entry>) {
    forall i | 0 <= i < |entries| :: Readable(d, entries[i])
  }

  // ---------- one token ----------

  lemma SkipSpaceOver(c: char, s: string)
    requires IsSpace(c)
    ensures SkipSpace([c] + s) == SkipSpace(s)
  {
    assert ([c] + s)[1..] == s;
  }

  lemma SkipNothing(s: string)
    requires s != [] && !IsSpace(s[0])
    ensures SkipSpace(s) == s
  {
  }

  lemma SkipIndent(mode: JsonFormat, c: char, s: string)
    requires IsSpace(c)
    ensures SkipSpace(Indent(mode, [c]) + s) == SkipSpace(s)
  {
    if mode.FORMATTED? {
      SkipSpaceOver(c, s);
    } else {
      assert Indent(mode, [c]) + s == s;
    }
  }

  lemma {:induction false} EscapedRead(d: Dialect, s: string, tail: string)
    ensures ReadString(d, Escape(s) + ("\"" + tail)) == if d.rawControls || Clean(s) then Ok(s, tail) else Fail
  {
    var rest := "\"" + tail;
    if s == [] {
      assert Escape(s) + rest == rest;
      assert rest[1..] == tail;
    } else {
      EscapedRead(d, s[1..], tail);
      var more := Escape(s[1..]) + rest;
      assert s == [s[0]] + s[1..];
      assert Clean(s) <==> s[0] >= ' ' && Clean(s[1..]);
      if s[0] == '"' || s[0] == '\\' {
        assert Escape(s) + rest == ['\\', s[0]] + more;
        assert (['\\', s[0]] + more)[1..] == [s[0]] + more;
        assert ([s[0]] + more)[1..] == more;
      } else {
        assert Escape(s) + rest == [s[0]] + more;
        assert ([s[0]] + more)[1..] == more;
      }
    }
  }

  lemma QuoteSplit(s: string, tail: string)
    ensures Quote(s) + tail == "\"" + (Escape(s) + ("\"" + tail))
  {
  }

  lemma {:induction false} DigitRunOf(s: string, tail: string)
    requires AllDigits(s)
    requires tail == [] || !IsDigit(tail[0])
    ensures DigitRun(s + tail) == |s|
  {
    if s == [] {
      assert s + tail == tail;
    } else {
      DigitRunOf(s[1..], tail);
      assert (s + tail)[1..] == s[1..] + tail;
    }
  }

  /** What may follow a value in the printed text. */
  predicate Delimited(tail: string) {
    tail != [] && (tail[0] == ',' || tail[0] == '}' || tail[0] == '\n')
  }

  lemma NumberRead(d: Dialect, n: nat, tail: string)
    requires Delimited(tail)
    ensures ReadValue(d, Digits(n) + tail) == Ok(Number(Digits(n)), tail)
  {
    var s := Digits(n);
    DigitRunOf(s, tail);
    var text := s + tail;
    assert text[0] == s[0] && IsDigit(text[0]);
    assert text[0..] == text;
    assert text[|s|..] == tail && text[..|s|] == s;
    assert FractionLength(tail) == 0 && ExponentLength(tail) == 0;
    assert text[|s| + 0..] == tail;
    assert NumberLength(text) == |s|;
  }

  lemma QuotedRead(d: Dialect, s: string, tail: string)
    ensures SkipSpace(Quote(s) + tail) == Quote(s) + tail
    ensures ReadValue(d, Quote(s) + tail) == if d.rawControls || Clean(s) then Ok(String(s), tail) else Fail
  {
    QuoteSplit(s, tail);
    var inner := Escape(s) + ("\"" + tail);
    SkipNothing("\"" + inner);
    EscapedRead(d, s, tail);
    assert ("\"" + inner)[1..] == inner;
  }

  /** No JSON value starts with what follows an empty one. */
  lemma AbsentRead(d: Dialect, s: string)
    requires s != [] && (s[0] == ',' || s[0] == '}')
    ensures ReadValue(d, s) == if d.emptyValues then Ok(Empty, s) else Fail
  {
    assert s[0..] == s;
    assert NumberLength(s) == 0;
    assert !StartsWith(s, "true") && !StartsWith(s, "false") && !StartsWith(s, "null");
  }

  /** A value, up to the space that follows it; an absent one is an error unless the dialect allows it. */
  lemma NodeRead(d: Dialect, e: Entry, tail: string)
    requires Delimited(tail)
    requires SkipSpace(tail) != [] && (SkipSpace(tail)[0] == ',' || SkipSpace(tail)[0] == '}')
    ensures var r := ReadValue(d, SkipSpace(NodeText(e.node) + tail));
      if (e.node.Absent? ==> d.emptyValues) && (e.node.Quoted? ==> d.rawControls || Clean(e.node.text))
      then r.Ok? && r.value == MemberOf(e).1 && SkipSpace(r.rest) == SkipSpace(tail)
      else r.Fail?
  {
    match e.node {
      case Bare(number) =>
        SkipNothing(Digits(number) + tail);
        NumberRead(d, number, tail);
      case Quoted(text) =>
        QuotedRead(d, text, tail);
      case Absent =>
        assert NodeText(e.node) + tail == tail;
        SkipNothing(SkipSpace(tail));
        AbsentRead(d, SkipSpace(tail));
    }
  }

  // ---------- one member ----------

  lemma MemberRead(d: Dialect, e: Entry, mode: JsonFormat, tail: string)
    requires Delimited(tail)
    requires SkipSpace(tail) != [] && (SkipSpace(tail)[0] == ',' || SkipSpace(tail)[0] == '}')
    ensures ReadMember(d, EntryText(e, mode) + tail)
         == if Readable(d, e) then Ok(MemberOf(e), SkipSpace(tail)) else Fail
  {
    var value := NodeText(e.node) + tail;
    var colon := ":" + (Indent(mode, " ") + value);
    var literal := Escape(e.name) + ("\"" + colon);
    assert EntryText(e, mode) + tail == Indent(mode, "\t") + ("\"" + literal) by {
      QuoteSplit(e.name, colon);
      LeadSplit(Indent(mode, "\t"), Quote(e.name), ":", Indent(mode, " "), NodeText(e.node), tail);
    }
    SkipIndent(mode, '\t', "\"" + literal);
    SkipNothing("\"" + literal);
    assert ("\"" + literal)[1..] == literal;
    EscapedRead(d, e.name, colon);
    SkipNothing(colon);
    assert colon[1..] == Indent(mode, " ") + value;
    SkipIndent(mode, ' ', value);
    NodeRead(d, e, tail);
  }

  lemma LeadSplit(a: string, b: string, c: string, d: string, e: string, f: string)
    ensures a + b + c + d + e + f == a + (b + (c + (d + (e + f))))
    ensures a + b + c + d + e == a + (b + (c + (d + e)))
    ensures a + b + c + d == a + (b + (c + d))
  {
  }

  lemma ReadMembersSkips(d: Dialect, s: string)
    ensures ReadMembers(d, s) == ReadMembers(d, SkipSpace(s))
  {
    if SkipSpace(s) != [] {
      SkipNothing(SkipSpace(s));
    }
  }

  // ---------- all members ----------

  lemma {:induction false} MembersRead(d: Dialect, entries: seq<Entry>, mode: JsonFormat, tail: string)
    requires entries != []
    ensures ReadMembers(d, Body(entries, mode) + (Closing(mode) + tail))
         == if AllReadable(d, entries) then Ok(MembersOf(entries), "\n" + tail) else Fail
  {
    var first := entries[0];
    var closing := Closing(mode) + tail;
    assert entries == [first] + entries[1..];
    assert AllReadable(d, entries) <==> Readable(d, first) && AllReadable(d, entries[1..]);
    if |entries| == 1 {
      ClosingRead(mode, tail);
      MemberRead(d, first, mode, closing);
      assert entries[1..] == [];
      assert MembersOf(entries) == [MemberOf(first)];
      assert ("}" + ("\n" + tail))[1..] == "\n" + tail;
    } else {
      MembersRead(d, entries[1..], mode, tail);
      var more := Body(entries[1..], mode) + closing;
      SeparatorSplit(EntryText(first, mode), mode, Body(entries[1..], mode), closing);
      NextMembersRead(d, first, mode, more);
    }
  }

  /** A member with others behind it. */
  lemma NextMembersRead(d: Dialect, e: Entry, mode: JsonFormat, more: string)
    ensures ReadMembers(d, EntryText(e, mode) + ("," + (Indent(mode, "\n") + more)))
         == if !Readable(d, e) then Fail
            else match ReadMembers(d, more)
              case Fail => Fail
              case Ok(members, rest) => Ok([MemberOf(e)] + members, rest)
  {
    var next := "," + (Indent(mode, "\n") + more);
    SkipNothing(next);
    MemberRead(d, e, mode, next);
    assert next[1..] == Indent(mode, "\n") + more;
    SkipIndent(mode, '\n', more);
    ReadMembersSkips(d, Indent(mode, "\n") + more);
    ReadMembersSkips(d, more);
  }

  lemma SeparatorSplit(a: string, mode: JsonFormat, b: string, c: string)
    ensures a + Separator(mode) + b + c == a + ("," + (Indent(mode, "\n") + (b + c)))
  {
  }

  lemma ClosingRead(mode: JsonFormat, tail: string)
    ensures Delimited(Closing(mode) + tail)
    ensures SkipSpace(Closing(mode) + tail) == "}" + ("\n" + tail)
  {
    assert Closing(mode) + tail == Indent(mode, "\n") + ("}" + ("\n" + tail));
    SkipIndent(mode, '\n', "}" + ("\n" + tail));
    SkipNothing("}" + ("\n" + tail));
  }

  /** The inside of the braces, empty or not. */
  lemma MembersOrNone(d: Dialect, entries: seq<Entry>, mode: JsonFormat, tail: string)
    ensures var s := SkipSpace(Body(entries, mode) + (Closing(mode) + tail));
      && s != []
      && (entries == [] ==> s[0] == '}' && s[1..] == "\n" + tail)
      && (entries != [] ==>
            && s[0] == '"'
            && ReadMembers(d, s) == if AllReadable(d, entries) then Ok(MembersOf(entries), "\n" + tail) else Fail)
  {
    var body := Body(entries, mode) + (Closing(mode) + tail);
    if entries == [] {
      assert body == Closing(mode) + tail;
      ClosingRead(mode, tail);
      assert ("}" + ("\n" + tail))[1..] == "\n" + tail;
    } else {
      MembersRead(d, entries, mode, tail);
      ReadMembersSkips(d, body);
      BodyStartsWithQuote(entries, mode, Closing(mode) + tail);
    }
  }

  lemma ObjectRead(d: Dialect, entries: seq<Entry>, mode: JsonFormat, tail: string)
    ensures ReadObject(d, "{" + (Indent(mode, "\n") + (Body(entries, mode) + (Closing(mode) + tail))))
         == if AllReadable(d, entries) then Ok(Object(MembersOf(entries)), "\n" + tail) else Fail
  {
    var body := Body(entries, mode) + (Closing(mode) + tail);
    var inner := Indent(mode, "\n") + body;
    assert ("{" + inner)[1..] == inner;
    SkipIndent(mode, '\n', body);
    MembersOrNone(d, entries, mode, tail);
  }

  /** Master result: in either dialect and either layout, with anything behind it, a printed
      record reads back as exactly its entries when the dialect allows them all, and is
      rejected otherwise. */
  lemma RecordRead(d: Dialect, entries: seq<Entry>, mode: JsonFormat, tail: string)
    ensures ReadRecord(d, RecordText(entries, mode) + tail)
         == if AllReadable(d, entries) then Ok(Object(MembersOf(entries)), tail) else Fail
  {
    RecordSplit(entries, mode, tail);
    ObjectRead(d, entries, mode, tail);
    assert ("\n" + tail)[1..] == tail;
  }

  lemma RecordSplit(entries: seq<Entry>, mode: JsonFormat, tail: string)
    ensures RecordText(entries, mode) + tail == "{" + (Indent(mode, "\n") + (Body(entries, mode) + (Closing(mode) + tail)))
  {
    LeadSplit("{", Indent(mode, "\n"), Body(entries, mode), Closing(mode), tail, "");
  }

  lemma BodyStartsWithQuote(entries: seq<Entry>, mode: JsonFormat, tail: string)
    requires entries != []
    ensures var s := SkipSpace(Body(entries, mode) + tail); s != [] && s[0] == '"'
  {
    var text := Body(entries, mode) + tail;
    var name := Quote(entries[0].name);
    var lead := Indent(mode, "\t");
    assert |text| > |lead| && text[..|lead|] == lead && text[|lead|] == '"';
    assert text == lead + text[|lead|..];
    SkipIndent(mode, '\t', text[|lead|..]);
    SkipNothing(text[|lead|..]);
  }

  // ---------- what follows for files of records ----------

  lemma {:induction false} MembersInjective(a: seq<Entry>, b: seq<Entry>)
    requires MembersOf(a) == MembersOf(b)
    ensures a == b
  {
    if a != [] && b != [] {
      assert MembersOf(a)[0] == MembersOf(b)[0];
      if a[0].node.Bare? && b[0].node.Bare? {
        ValueOfDigits(a[0].node.number);
        ValueOfDigits(b[0].node.number);
      }
      assert MembersOf(a)[1..] == MembersOf(a[1..]) && MembersOf(b)[1..] == MembersOf(b[1..]);
      MembersInjective(a[1..], b[1..]);
      assert a == [a[0]] + a[1..] && b == [b[0]] + b[1..];
    }
  }

  /** Records delimit themselves: equal texts start with the same projection and go on equally,
      whatever the layouts, the bytes in names and values, and the failed extractions. */
  lemma RecordSelfDelimiting(a: seq<Entry>, m: JsonFormat, s: string, b: seq<Entry>, n: JsonFormat, t: string)
    requires RecordText(a, m) + s == RecordText(b, n) + t
    ensures a == b && s == t
  {
    RecordRead(PRINTED, a, m, s);
    RecordRead(PRINTED, b, n, t);
    MembersInjective(a, b);
  }

  datatype PrintedRecord = PrintedRecord(entries: seq<Entry>, mode: JsonFormat)

  /** A log file: printed records one after the other. */
  function LogText(records: seq<PrintedRecord>): string {
    if records == [] then "" else RecordText(records[0].entries, records[0].mode) + LogText(records[1..])
  }

  function Projections(records: seq<PrintedRecord>): seq<seq<Entry>> {
    if records == [] then [] else [records[0].entries] + Projections(records[1..])
  }

  function ObjectsOf(projections: seq<seq<Entry>>): seq<Json> {
    if projections == [] then [] else [Object(MembersOf(projections[0]))] + ObjectsOf(projections[1..])
  }

  /** A file decodes record by record to its projections, whatever they contain. */
  lemma {:induction false} LogDecodes(records: seq<PrintedRecord>)
    ensures ReadLog(PRINTED, LogText(records)) == Ok(ObjectsOf(Projections(records)), "")
  {
    if records != [] {
      LogDecodes(records[1..]);
      RecordRead(PRINTED, records[0].entries, records[0].mode, LogText(records[1..]));
      assert RecordText(records[0].entries, records[0].mode)[0] == '{';
      assert Projections(records)[1..] == Projections(records[1..]);
    }
  }

  /** Equal files hold the same number of records with the same projections. */
  lemma {:induction false} LogInjective(a: seq<PrintedRecord>, b: seq<PrintedRecord>)
    requires LogText(a) == LogText(b)
    ensures Projections(a) == Projections(b)
  {
    if a != [] && b != [] {
      RecordSelfDelimiting(a[0].entries, a[0].mode, LogText(a[1..]), b[0].entries, b[0].mode, LogText(b[1..]));
      LogInjective(a[1..], b[1..]);
    }
  }

  // ---------- agreement with the standard ----------

  predicate CleanValue(v: AttributeValue) {
    match v
    case PtimeValue(text) => Clean(text)
    case StringValue(chars) => Clean(chars)
    case _ => true
  }

  /** A registered attribute that the standard can carry as printed. */
  predicate Standard(a: Attribute, registry: Registry) {
    a.name in registry ==> Extracts(registry[a.name], a.value) && Clean(a.name) && CleanValue(a.value)
  }

  lemma AllReadableCons(d: Dialect, e: Entry, rest: seq<Entry>)
    ensures AllReadable(d, [e] + rest) <==> Readable(d, e) && AllReadable(d, rest)
  {
    if AllReadable(d, [e] + rest) {
      assert ([e] + rest)[0] == e;
      forall i | 0 <= i < |rest| ensures Readable(d, rest[i]) {
        assert ([e] + rest)[i + 1] == rest[i];
      }
    }
  }

  lemma {:induction false} ProjectionReadable(view: seq<Attribute>, registry: Registry)
    ensures AllReadable(RFC, Projection(view, registry)) <==> forall i | 0 <= i < |view| :: Standard(view[i], registry)
  {
    if view != [] {
      ProjectionReadable(view[1..], registry);
      var rest := Projection(view[1..], registry);
      assert view == [view[0]] + view[1..];
      assert (forall i | 0 <= i < |view| :: Standard(view[i], registry))
        <==> Standard(view[0], registry) && forall i | 0 <= i < |view[1..]| :: Standard(view[1..][i], registry);
      if view[0].name in registry {
        var e := Entry(view[0].name, NodeOf(registry[view[0].name], view[0].value));
        assert Projection(view, registry) == [e] + rest;
        AllReadableCons(RFC, e, rest);
        SeverityClean(view[0].value);
      }
    }
  }

  lemma SeverityClean(v: AttributeValue)
    ensures v.SeverityValue? ==> Clean(SeverityText(v.level))
  {
  }

  /** RFC 8259 accepts a printed record exactly when every registered attribute extracts at its
      registered type and neither names nor quoted values hold characters below U+0020; what it
      then reads are the registered attributes in order. */
  lemma StandardAcceptsIff(view: seq<Attribute>, registry: Registry, mode: JsonFormat, tail: string)
    ensures var r := ReadRecord(RFC, RecordText(Projection(view, registry), mode) + tail);
      && (r.Ok? <==> forall i | 0 <= i < |view| :: Standard(view[i], registry))
      && (r.Ok? ==> r == Ok(Object(MembersOf(Projection(view, registry))), tail))
  {
    RecordRead(RFC, Projection(view, registry), mode, tail);
    ProjectionReadable(view, registry);
  }

  // ---------- from the record's own attributes ----------

  /** What a reader must see of a value under its registered type. */
  predicate ValueShown(t: AttributeType, v: AttributeValue, json: Json) {
    match (t, v)
    case (UInt32Type, UInt32Value(number)) => json.Number? && AllDigits(json.digits) && Value(json.digits) == number
    case (PtimeType, PtimeValue(text)) => json == String(text)
    case (StringType, StringValue(chars)) => json == String(chars)
    case (SeverityType, SeverityValue(Trace)) => json == String("trace")
    case (SeverityType, SeverityValue(Debug)) => json == String("debug")
    case (SeverityType, SeverityValue(Info)) => json == String("info")
    case (SeverityType, SeverityValue(Warning)) => json == String("warning")
    case (SeverityType, SeverityValue(Error)) => json == String("error")
    case (SeverityType, SeverityValue(Fatal)) => json == String("fatal")
    case _ => json == Empty
  }

  /** One member per registered attribute, in order, with the attribute's name and value. */
  predicate Shows(view: seq<Attribute>, registry: Registry, members: seq<(string, Json)>) {
    if view == [] then members == []
    else if view[0].name !in registry then Shows(view[1..], registry, members)
    else
      && members != []
      && members[0].0 == view[0].name
      && ValueShown(registry[view[0].name], view[0].value, members[0].1)
      && Shows(view[1..], registry, members[1..])
  }

  lemma NodeShown(t: AttributeType, v: AttributeValue, name: string)
    ensures ValueShown(t, v, MemberOf(Entry(name, NodeOf(t, v))).1)
  {
    if v.UInt32Value? {
      ValueOfDigits(v.number);
    }
  }

  lemma {:induction false} ProjectionShows(view: seq<Attribute>, registry: Registry)
    ensures Shows(view, registry, MembersOf(Projection(view, registry)))
  {
    if view != [] {
      ProjectionShows(view[1..], registry);
      if view[0].name in registry {
        NodeShown(registry[view[0].name], view[0].value, view[0].name);
        var members := MembersOf(Projection(view, registry));
        assert members[0] == MemberOf(Entry(view[0].name, NodeOf(registry[view[0].name], view[0].value)));
        assert members[1..] == MembersOf(Projection(view[1..], registry));
      }
    }
  }

  /** From attributes to what is read: whatever either reader accepts of a printed record is one
      object with the registered attributes in order, numbers by value and texts by their
      characters; the wider dialect accepts every record. */
  lemma RecordShows(d: Dialect, view: seq<Attribute>, registry: Registry, mode: JsonFormat, tail: string)
    ensures var r := ReadRecord(d, RecordText(Projection(view, registry), mode) + tail);
      && (d == PRINTED ==> r.Ok?)
      && (r.Ok? ==> r.rest == tail && r.value.Object? && Shows(view, registry, r.value.members))
  {
    RecordRead(d, Projection(view, registry), mode, tail);
    ProjectionShows(view, registry);
  }
}
