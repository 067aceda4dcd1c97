/** The JSON log-record printer of `common/src/observability.cc`, at the text it emits.

    A Dafny `char` stands for one character of the C++ string; encodings are not interpreted. */
module LogPrinter {
  import opened Decimal

  datatype Severity = Trace | Debug | Info | Warning | Error | Fatal

  function SeverityText(level: Severity): string {
    match level
    case Trace => "trace"
    case Debug => "debug"
    case Info => "info"
    case Warning => "warning"
    case Error => "error"
    case Fatal => "fatal"
  }

  /** The value types the registry knows how to extract. */
  datatype AttributeType = PtimeType | SeverityType | UInt32Type | StringType

  type UInt32 = n: int | 0 <= n < 0x1_0000_0000

  /** A log attribute value. A time carries the text its stream operator prints, which Boost
      decides; `OtherValue` is any value of a type the registry does not know. */
  datatype AttributeValue =
    | PtimeValue(text: string)
    | SeverityValue(level: Severity)
    | UInt32Value(number: UInt32)
    | StringValue(chars: string)
    | OtherValue

  datatype Attribute = Attribute(name: string, value: AttributeValue)

  /** What one attribute contributes: a bare number, a quoted text, or nothing at all when the
      stored value is not of the registered type. */
  datatype Node = Bare(number: UInt32) | Quoted(text: string) | Absent

  datatype Entry = Entry(name: string, node: Node)

  datatype JsonFormat = NO_INDENT | FORMATTED

  type Registry = map<string, AttributeType>

  predicate Extracts(t: AttributeType, v: AttributeValue) {
    match v
    case PtimeValue(_) => t.PtimeType?
    case SeverityValue(_) => t.SeverityType?
    case UInt32Value(_) => t.UInt32Type?
    case StringValue(_) => t.StringType?
    case OtherValue => false
  }

  function NodeOf(t: AttributeType, v: AttributeValue): Node {
    if !Extracts(t, v) then Absent
    else match v
      case PtimeValue(text) => Quoted(text)
      case SeverityValue(level) => Quoted(SeverityText(level))
      case UInt32Value(number) => Bare(number)
      case StringValue(chars) => Quoted(chars)
  }

  /** The text that a value of the registered type is printed as; any other value prints nothing. */
  predicate PrintedAs(t: AttributeType, v: AttributeValue, text: string) {
    match (t, v)
    case (UInt32Type, UInt32Value(number)) => text == Digits(number)
    case (PtimeType, PtimeValue(time)) => text == Quote(time)
    case (StringType, StringValue(chars)) => text == Quote(chars)
    case (SeverityType, SeverityValue(Trace)) => text == Quote("trace")
    case (SeverityType, SeverityValue(Debug)) => text == Quote("debug")
    case (SeverityType, SeverityValue(Info)) => text == Quote("info")
    case (SeverityType, SeverityValue(Warning)) => text == Quote("warning")
    case (SeverityType, SeverityValue(Error)) => text == Quote("error")
    case (SeverityType, SeverityValue(Fatal)) => text == Quote("fatal")
    case _ => text == ""
  }

  /** The registered attributes of a record, in order. */
  function Projection(view: seq<Attribute>, registry: Registry): seq<Entry> {
    if view == [] then []
    else
      var rest := Projection(view[1..], registry);
      if view[0].name in registry
      then [Entry(view[0].name, NodeOf(registry[view[0].name], view[0].value))] + rest
      else rest
  }

  // ---------- text ----------

  function Indent(mode: JsonFormat, symbol: string): string {
    if mode.FORMATTED? then symbol else ""
  }

  /** The inside of `std::quoted`: only the quote and the backslash are escaped. */
  function Escape(s: string): string {
    if s == [] then []
    else (if s[0] == '"' || s[0] == '\\' then ['\\', s[0]] else [s[0]]) + Escape(s[1..])
  }

  function Quote(s: string): string {
    "\"" + Escape(s) + "\""
  }

  function NodeText(node: Node): string {
    match node
    case Bare(number) => Digits(number)
    case Quoted(text) => Quote(text)
    case Absent => ""
  }

  function Lead(name: string, mode: JsonFormat): string {
    Indent(mode, "\t") + Quote(name) + ":" + Indent(mode, " ")
  }

  function Separator(mode: JsonFormat): string {
    "," + Indent(mode, "\n")
  }

  function EntryText(e: Entry, mode: JsonFormat): string {
    Lead(e.name, mode) + NodeText(e.node)
  }

  /** The entries, with a comma and a line break strictly between neighbours. */
  function Body(entries: seq<Entry>, mode: JsonFormat): string {
    if entries == [] then ""
    else if |entries| == 1 then EntryText(entries[0], mode)
    else EntryText(entries[0], mode) + Separator(mode) + Body(entries[1..], mode)
  }

  function Opening(mode: JsonFormat): string {
    "{" + Indent(mode, "\n")
  }

  function Closing(mode: JsonFormat): string {
    Indent(mode, "\n") + "}\n"
  }

  function RecordText(entries: seq<Entry>, mode: JsonFormat): string {
    Opening(mode) + Body(entries, mode) + Closing(mode)
  }

  // ---------- the printer ----------

  class OutputStream {
    var text: string

    constructor ()
      ensures text == ""
    {
      text := "";
    }

    method Put(s: string)
      modifies this
      ensures text == old(text) + s
    {
      text := text + s;
    }
  }

  const DEFAULT_NAMES := {"TimeStamp", "Severity", "LineID", "TraceId", "SpanId", "Message"}

  class FormatterRegistry {
    var formatters: Registry

    constructor ()
      ensures formatters == map[]
    {
      formatters := map[];
    }

    /** The entries that the initialiser of the default logger fills in. */
    method RegisterDefaults()
      modifies this
      ensures formatters.Keys == old(formatters.Keys) + DEFAULT_NAMES
      ensures formatters["TimeStamp"] == PtimeType
      ensures formatters["Severity"] == SeverityType
      ensures formatters["LineID"] == UInt32Type
      ensures forall name | name in {"TraceId", "SpanId", "Message"} :: formatters[name] == StringType
      ensures forall name | name in old(formatters) && name !in DEFAULT_NAMES :: formatters[name] == old(formatters[name])
    {
      formatters := formatters["TimeStamp" := PtimeType];
      formatters := formatters["Severity" := SeverityType];
      formatters := formatters["LineID" := UInt32Type];
      formatters := formatters["TraceId" := StringType];
      formatters := formatters["SpanId" := StringType];
      formatters := formatters["Message" := StringType];
    }
  }

  /** `to_json_node<T>`: a failed extraction writes nothing. */
  method ToJsonNode(strm: OutputStream, t: AttributeType, attr: AttributeValue)
    modifies strm
    ensures strm.text == old(strm.text) + NodeText(NodeOf(t, attr))
    ensures PrintedAs(t, attr, NodeText(NodeOf(t, attr)))
  {
    if Extracts(t, attr) {
      match attr {
        case UInt32Value(number) => strm.Put(Digits(number));
        case PtimeValue(text) => strm.Put(Quote(text));
        case SeverityValue(level) => strm.Put(Quote(SeverityText(level)));
        case StringValue(chars) => strm.Put(Quote(chars));
      }
    }
  }

  /** The inside of the loop for a registered attribute. */
  method PutAttribute(name: string, t: AttributeType, value: AttributeValue, first: bool, os: OutputStream, mode: JsonFormat)
    modifies os
    ensures os.text == old(os.text) + (if first then "" else Separator(mode)) + (Lead(name, mode) + NodeText(NodeOf(t, value)))
  {
    ghost var before := os.text;
    if !first {
      os.Put(Separator(mode));
    } else {
      Regroup(before, "", "", "");
    }
    ghost var separated := os.text;
    os.Put(Lead(name, mode));
    var ss := new OutputStream();
    ToJsonNode(ss, t, value);
    os.Put(ss.text);
    Regroup(NodeText(NodeOf(t, value)), "", "", "");
    Regroup(separated, Lead(name, mode), ss.text, "");
  }

  /** `json_attrs_formatter`: one pass over the attributes with a `first` flag appends exactly
      the text of the record's projection. */
  method JsonAttrsFormatter(view: seq<Attribute>, registry: FormatterRegistry, os: OutputStream, mode: JsonFormat)
    modifies os
    ensures os.text == old(os.text) + RecordText(Projection(view, registry.formatters), mode)
  {
    os.Put(Opening(mode));
    ghost var start := os.text;
    ghost var formatters := registry.formatters;
    ghost var done: seq<Entry> := [];
    Regroup(start, "", "", "");
    var first := true;
    for i := 0 to |view|
      invariant registry.formatters == formatters
      invariant done == Projection(view[..i], formatters)
      invariant first <==> done == []
      invariant os.text == start + Body(done, mode)
    {
      var attribute := view[i];
      PrintedSoFar(view, i, formatters);
      if attribute.name in registry.formatters {
        PutAttribute(attribute.name, registry.formatters[attribute.name], attribute.value, first, os, mode);
        first := false;
        ghost var e := Entry(attribute.name, NodeOf(formatters[attribute.name], attribute.value));
        EntryPrinted(start, done, e, mode);
        done := done + [e];
      }
    }
    assert view[..|view|] == view;
    os.Put(Closing(mode));
    Regroup(old(os.text), Opening(mode), Body(done, mode), Closing(mode));
  }

  /** What one turn puts on the stream makes the next entry of the body. */
  lemma EntryPrinted(start: string, done: seq<Entry>, e: Entry, mode: JsonFormat)
    ensures start + Body(done, mode) + (if done == [] then "" else Separator(mode)) + (Lead(e.name, mode) + NodeText(e.node))
         == start + Body(done + [e], mode)
  {
    BodyAppend(done, e, mode);
    Regroup(start, Body(done, mode), if done == [] then "" else Separator(mode), EntryText(e, mode));
  }

  lemma Regroup(a: string, b: string, c: string, d: string)
    ensures a + b + c + d == a + (b + c + d)
    ensures a + b + c == a + (b + c)
    ensures a + "" == a == "" + a
  {
  }

  /** One turn of the printer's loop: an unregistered attribute adds nothing, a registered one its entry. */
  lemma PrintedSoFar(view: seq<Attribute>, i: nat, registry: Registry)
    requires i < |view|
    ensures Projection(view[..i + 1], registry) ==
      if view[i].name in registry
      then Projection(view[..i], registry) + [Entry(view[i].name, NodeOf(registry[view[i].name], view[i].value))]
      else Projection(view[..i], registry)
  {
    assert view[..i + 1] == view[..i] + [view[i]];
    ProjectionAppend(view[..i], view[i], registry);
  }

  lemma {:induction false} ProjectionAppend(view: seq<Attribute>, a: Attribute, registry: Registry)
    ensures Projection(view + [a], registry) == Projection(view, registry) + Projection([a], registry)
  {
    if view == [] {
      assert view + [a] == [a];
    } else {
      ProjectionAppend(view[1..], a, registry);
      assert (view + [a])[1..] == view[1..] + [a];
    }
  }

  lemma {:induction false} BodyAppend(entries: seq<Entry>, e: Entry, mode: JsonFormat)
    ensures Body(entries + [e], mode)
         == Body(entries, mode) + (if entries == [] then "" else Separator(mode)) + EntryText(e, mode)
  {
    if entries == [] {
      assert entries + [e] == [e];
    } else {
      BodyAppend(entries[1..], e, mode);
      assert (entries + [e])[1..] == entries[1..] + [e];
      if |entries| > 1 {
        var (h, r) := (EntryText(entries[0], mode) + Separator(mode), Body(entries[1..], mode));
        Regroup(h, r, Separator(mode), EntryText(e, mode));
      }
    }
  }
}
