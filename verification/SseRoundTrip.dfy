/** The reader gets back what the dashboard wrote. */
module SseRoundTrip {
  import opened Options
  import opened Sse

  predicate IsOneLine(s: string) {
    '\n' !in s
  }

  lemma {:induction false} IndexOfFirst(before: string, c: char, after: string)
    requires c !in before
    ensures IndexOf(before + ([c] + after), c) == |before|
  {
    var s := before + ([c] + after);
    if before != "" {
      assert s[0] == before[0] && s[1..] == before[1..] + ([c] + after);
      IndexOfFirst(before[1..], c, after);
    }
  }

  lemma LineReads(line: string, rest: string)
    requires IsOneLine(line)
    ensures line + ("\n" + rest) != ""
    ensures FirstLine(line + ("\n" + rest)) == DropCr(line) && AfterLine(line + ("\n" + rest)) == rest
  {
    var input := line + ("\n" + rest);
    IndexOfFirst(line, '\n', rest);
    assert input[..|line|] == line && input[|line| + 1..] == rest;
  }

  function Field(name: string, value: string): string {
    name + (": " + value)
  }

  lemma FieldParts(name: string, value: string)
    requires ':' !in name
    ensures FieldName(Field(name, value)) == name && FieldValue(Field(name, value)) == value
  {
    var line, after := Field(name, value), " " + value;
    assert line == name + ([':'] + after);
    IndexOfFirst(name, ':', after);
    assert line[..|name|] == name;
    assert line[|name| + 1..] == after && after[1..] == value;
  }

  lemma FieldDropsCr(name: string, value: string)
    ensures DropCr(Field(name, value)) == Field(name, DropCr(value))
  {
    var line := Field(name, value);
    if value != "" {
      assert line[|line| - 1] == value[|value| - 1];
      assert line[..|line| - 1] == Field(name, value[..|value| - 1]);
    }
  }

  lemma FieldReads(name: string, value: string, rest: string, p: Pending, lastId: string)
    requires name != "" && ':' !in name && IsOneLine(name) && IsOneLine(value)
    ensures
      var (q, id) := Took(name, DropCr(value), p, lastId);
      Read(Field(name, value) + ("\n" + rest), p, lastId) == Read(rest, q, id)
  {
    LineReads(Field(name, value), rest);
    FieldDropsCr(name, value);
    FieldParts(name, DropCr(value));
  }

  lemma {:induction false} DecimalIsClean(n: nat)
    ensures Decimal(n) != "" && forall i :: 0 <= i < |Decimal(n)| ==> '0' <= Decimal(n)[i] <= '9'
  {
    if n >= 10 {
      DecimalIsClean(n / 10);
    }
  }

  /** The number that a string of digits stands for. */
  function Value(digits: string): int {
    if digits == "" then 0 else 10 * Value(digits[..|digits| - 1]) + (digits[|digits| - 1] as int - '0' as int)
  }

  /** An id is read back as its number. */
  lemma {:induction false} DecimalReads(n: nat)
    ensures Value(Decimal(n)) == n
  {
    if n >= 10 {
      DecimalReads(n / 10);
      assert Decimal(n)[..|Decimal(n)| - 1] == Decimal(n / 10);
    } else {
      assert Value("") == 0;
    }
  }

  function ReceivedKind(kind: string): string {
    if DropCr(kind) == "" then "message" else DropCr(kind)
  }

  // The lines of a frame, from its end.

  function FromRetry(rest: string): string {
    Field("retry", "1000") + ("\n" + ("" + ("\n" + rest)))
  }

  function FromId(id: nat, rest: string): string {
    Field("id", Decimal(id)) + ("\n" + FromRetry(rest))
  }

  function FromData(data: string, id: nat, rest: string): string {
    Field("data", data) + ("\n" + FromId(id, rest))
  }

  function FromEvent(kind: string, data: string, id: nat, rest: string): string {
    Field("event", kind) + ("\n" + FromData(data, id, rest))
  }

  lemma FrameIsLines(kind: string, data: string, id: nat, rest: string)
    ensures Frame(kind, data, id) + rest == FromEvent(kind, data, id, rest)
  {
    var r3 := "retry: 1000\n\n" + rest;
    assert r3 == FromRetry(rest);
    var r2 := "id: " + Decimal(id) + "\n" + r3;
    assert r2 == Field("id", Decimal(id)) + ("\n" + r3);
    var r1 := "data: " + data + "\n" + r2;
    assert r1 == Field("data", data) + ("\n" + r2);
    assert "event: " + kind + "\n" + r1 == Field("event", kind) + ("\n" + r1);
    assert Frame(kind, data, id) + rest == "event: " + kind + "\n" + r1;
  }

  lemma FromRetryReads(rest: string, p: Pending, lastId: string)
    requires p.dataLines != []
    ensures Read(FromRetry(rest), p, lastId) == Outcome(Some(Finished(p, lastId)), rest, lastId)
  {
    FieldReads("retry", "1000", "" + ("\n" + rest), p, lastId);
    LineReads("", rest);
  }

  lemma FromIdReads(id: nat, rest: string, p: Pending, lastId: string)
    requires p.dataLines != []
    ensures Read(FromId(id, rest), p, lastId)
         == Outcome(Some(Finished(p.(id := Decimal(id)), Decimal(id))), rest, Decimal(id))
  {
    DecimalIsClean(id);
    FieldReads("id", Decimal(id), FromRetry(rest), p, lastId);
    FromRetryReads(rest, p.(id := Decimal(id)), Decimal(id));
  }

  lemma FromDataReads(data: string, id: nat, rest: string, p: Pending, lastId: string)
    requires IsOneLine(data) && p.dataLines == []
    ensures Read(FromData(data, id, rest), p, lastId)
         == Outcome(Some(Finished(Pending(p.kind, Decimal(id), [DropCr(data)]), Decimal(id))), rest, Decimal(id))
  {
    assert p.dataLines + [DropCr(data)] == [DropCr(data)];
    FieldReads("data", data, FromId(id, rest), p, lastId);
    FromIdReads(id, rest, p.(dataLines := [DropCr(data)]), lastId);
  }

  lemma FromEventReads(kind: string, data: string, id: nat, rest: string, p: Pending, lastId: string)
    requires IsOneLine(kind) && IsOneLine(data) && p.dataLines == []
    ensures Read(FromEvent(kind, data, id, rest), p, lastId)
         == Outcome(Some(Finished(Pending(DropCr(kind), Decimal(id), [DropCr(data)]), Decimal(id))), rest, Decimal(id))
  {
    FieldReads("event", kind, FromData(data, id, rest), p, lastId);
    FromDataReads(data, id, rest, p.(kind := DropCr(kind)), lastId);
  }

  /** Reading a frame gives its event and stops right behind it. */
  lemma FrameReads(kind: string, data: string, id: nat, rest: string, lastId: string)
    requires IsOneLine(kind) && IsOneLine(data)
    ensures Read(Frame(kind, data, id) + rest, Start(lastId), lastId)
         == Outcome(Some(Event(ReceivedKind(kind), DropCr(data), Decimal(id))), rest, Decimal(id))
  {
    DecimalIsClean(id);
    FrameIsLines(kind, data, id, rest);
    FromEventReads(kind, data, id, rest, Start(lastId), lastId);
  }

  lemma KeepaliveReads(rest: string, p: Pending, lastId: string)
    requires p == Start(lastId)
    ensures Read(KEEPALIVE + rest, p, lastId) == Read(rest, p, lastId)
  {
    assert KEEPALIVE + rest == ":" + ("\n" + ("" + ("\n" + rest)));
    LineReads(":", "" + ("\n" + rest));
    LineReads("", rest);
  }

  /** What a client receives: an empty event name reads as "message", and a line loses one final
      carriage return. */
  function Received(items: seq<Item>, id: nat): seq<Event> {
    if items == [] then []
    else
      match items[0]
      case Tick => Received(items[1..], id)
      case Payload(kind, data) =>
        [Event(ReceivedKind(kind), DropCr(data), Decimal(id))] + Received(items[1..], id + 1)
  }

  predicate IsSendable(item: Item) {
    item.Payload? ==> IsOneLine(item.kind) && IsOneLine(item.data)
  }

  /** Any stream of one-line events and keepalives is read back event by event, in order, with its ids;
      then the reader is at the end. */
  lemma {:induction false} StreamReads(items: seq<Item>, id: nat, lastId: string)
    requires forall i :: 0 <= i < |items| ==> IsSendable(items[i])
    ensures ReadAll(Written(items, id), lastId) == Received(items, id)
  {
    if items != [] {
      assert IsSendable(items[0]);
      match items[0]
      case Tick =>
        KeepaliveReads(Written(items[1..], id), Start(lastId), lastId);
        StreamReads(items[1..], id, lastId);
      case Payload(kind, data) =>
        FrameReads(kind, data, id, Written(items[1..], id + 1), lastId);
        StreamReads(items[1..], id + 1, Decimal(id));
    }
  }

  /** The name is not empty, and neither it nor the data ends in a carriage return. */
  predicate IsClean(item: Item) {
    item.Payload? ==> item.kind != "" && DropCr(item.kind) == item.kind && DropCr(item.data) == item.data
  }

  /** The events that were sent, with their ids. */
  function Sent(items: seq<Item>, id: nat): seq<Event> {
    if items == [] then []
    else
      match items[0]
      case Tick => Sent(items[1..], id)
      case Payload(kind, data) => [Event(kind, data, Decimal(id))] + Sent(items[1..], id + 1)
  }

  lemma {:induction false} ReceivedAsSentIff(items: seq<Item>, id: nat)
    ensures Received(items, id) == Sent(items, id) <==> forall i :: 0 <= i < |items| ==> IsClean(items[i])
  {
    if items != [] {
      var next := if items[0].Tick? then id else id + 1;
      ReceivedAsSentIff(items[1..], next);
      var received, sent := Received(items[1..], next), Sent(items[1..], next);
      if items[0].Payload? {
        var e := Event(ReceivedKind(items[0].kind), DropCr(items[0].data), Decimal(id));
        var f := Event(items[0].kind, items[0].data, Decimal(id));
        assert e == f <==> IsClean(items[0]);
        assert [e] + received == [f] + sent <==> e == f && received == sent by {
          assert ([e] + received)[0] == e && ([f] + sent)[0] == f;
          assert ([e] + received)[1..] == received && ([f] + sent)[1..] == sent;
        }
      }
      assert (forall i :: 0 <= i < |items| ==> IsClean(items[i]))
        <==> IsClean(items[0]) && forall i :: 0 <= i < |items[1..]| ==> IsClean(items[1..][i]) by {
        assert forall i :: 0 <= i < |items[1..]| ==> items[1..][i] == items[i + 1];
        assert forall i :: 1 <= i < |items| ==> items[i] == items[1..][i - 1];
      }
    }
  }

  /** One-line events are received exactly as sent if and only if each is clean. */
  lemma RoundTripIff(items: seq<Item>, id: nat, lastId: string)
    requires forall i :: 0 <= i < |items| ==> IsSendable(items[i])
    ensures ReadAll(Written(items, id), lastId) == Sent(items, id) <==> forall i :: 0 <= i < |items| ==> IsClean(items[i])
  {
    StreamReads(items, id, lastId);
    ReceivedAsSentIff(items, id);
  }

  /** Reads a stream to its end. */
  method Receive(stream: string) returns (events: seq<Event>)
    ensures events == ReadAll(stream, "")
  {
    var reader := new Reader(stream);
    events := [];
    while true
      invariant ReadAll(stream, "") == events + ReadAll(reader.input, reader.lastEventId)
      decreases |reader.input|
    {
      ghost var input, lastId := reader.input, reader.lastEventId;
      ReadShrinks(input, Start(lastId), lastId);
      var event := reader.Next();
      if event.None? {
        return;
      }
      ghost var rest := ReadAll(reader.input, reader.lastEventId);
      assert events + ([event.value] + rest) == events + [event.value] + rest;
      events := events + [event.value];
    }
  }

  // ---------------------------------------------------------------------------------------------
  // What else the reader takes
  // ---------------------------------------------------------------------------------------------

  /** The parts of a text between its line feeds. */
  function SplitLines(s: string): seq<string> {
    var end := IndexOf(s, '\n');
    if end == |s| then [s] else [s[..end]] + SplitLines(s[end + 1..])
  }

  /** The data of an event can be taken apart again into its lines. */
  lemma {:induction false} JoinedLinesSplit(lines: seq<string>)
    requires lines != [] && forall i :: 0 <= i < |lines| ==> IsOneLine(lines[i])
    ensures SplitLines(JoinLines(lines)) == lines
  {
    if |lines| == 1 {
      NoneToFind(lines[0], '\n');
    } else {
      JoinedLinesSplit(lines[1..]);
      var more := JoinLines(lines[1..]);
      assert JoinLines(lines) == lines[0] + (['\n'] + more);
      SplitFirst(lines[0], more);
      assert lines == [lines[0]] + lines[1..];
    }
  }

  lemma SplitFirst(line: string, more: string)
    requires IsOneLine(line)
    ensures SplitLines(line + (['\n'] + more)) == [line] + SplitLines(more)
  {
    var s := line + (['\n'] + more);
    IndexOfFirst(line, '\n', more);
    assert s[..|line|] == line && s[|line| + 1..] == more;
  }

  lemma {:induction false} NoneToFind(s: string, c: char)
    requires c !in s
    ensures IndexOf(s, c) == |s|
  {
    if s != "" {
      NoneToFind(s[1..], c);
    }
  }

  function DataFields(lines: seq<string>, rest: string): string {
    if lines == [] then rest else Field("data", lines[0]) + ("\n" + DataFields(lines[1..], rest))
  }

  function WithoutCr(lines: seq<string>): seq<string> {
    seq(|lines|, i requires 0 <= i < |lines| => DropCr(lines[i]))
  }

  lemma {:induction false} DataFieldsRead(lines: seq<string>, rest: string, p: Pending, lastId: string)
    requires forall i :: 0 <= i < |lines| ==> IsOneLine(lines[i])
    ensures Read(DataFields(lines, rest), p, lastId)
         == Read(rest, p.(dataLines := p.dataLines + WithoutCr(lines)), lastId)
  {
    if lines == [] {
      assert p.dataLines + WithoutCr(lines) == p.dataLines;
    } else {
      FieldReads("data", lines[0], DataFields(lines[1..], rest), p, lastId);
      var q := p.(dataLines := p.dataLines + [DropCr(lines[0])]);
      DataFieldsRead(lines[1..], rest, q, lastId);
      assert q.dataLines + WithoutCr(lines[1..]) == p.dataLines + WithoutCr(lines);
    }
  }

  /** An event of several data lines and nothing else: it is a message with the last id seen, its data has
      those lines, and it ends at an empty line or with the input. */
  lemma LinesRead(lines: seq<string>, rest: string, lastId: string) returns (data: string)
    requires lines != [] && forall i :: 0 <= i < |lines| ==> IsOneLine(lines[i])
    ensures Read(DataFields(lines, "\n" + rest), Start(lastId), lastId) == Outcome(Some(Event("message", data, lastId)), rest, lastId)
    ensures Read(DataFields(lines, ""), Start(lastId), lastId) == Outcome(Some(Event("message", data, lastId)), "", lastId)
    ensures SplitLines(data) == WithoutCr(lines)
  {
    var dropped := WithoutCr(lines);
    data := JoinLines(dropped);
    forall i | 0 <= i < |dropped| ensures IsOneLine(dropped[i]) {
    }
    JoinedLinesSplit(dropped);
    assert Start(lastId).dataLines + dropped == dropped;
    DataFieldsRead(lines, "\n" + rest, Start(lastId), lastId);
    DataFieldsRead(lines, "", Start(lastId), lastId);
    LineReads("", rest);
    assert "" + ("\n" + rest) == "\n" + rest;
  }

  /** The line is a field of that name, with or without a value. */
  predicate IsField(line: string, name: string) {
    line == name || name + ":" <= line
  }

  lemma FieldNameIff(line: string, name: string)
    requires ':' !in name
    ensures FieldName(line) == name <==> IsField(line, name)
  {
    if line == name {
      NoneToFind(name, ':');
    } else if name + ":" <= line {
      assert line == name + ([':'] + line[|name| + 1..]);
      IndexOfFirst(name, ':', line[|name| + 1..]);
    } else if FieldName(line) == name {
      IndexFinds(line, ':');
    }
  }

  lemma {:induction false} IndexFinds(s: string, c: char)
    ensures IndexOf(s, c) < |s| ==> s[IndexOf(s, c)] == c
  {
    if s != "" && s[0] != c {
      IndexFinds(s[1..], c);
    }
  }

  /** The value of a field starts behind the colon, or behind one space after it. */
  lemma FieldValueIs(line: string, name: string, value: string)
    requires ':' !in name
    ensures line == name + ": " + value ==> FieldValue(line) == value
    ensures line == name + ":" + value && (value == "" || value[0] != ' ') ==> FieldValue(line) == value
    ensures line == name ==> FieldValue(line) == ""
  {
    if line == name {
      NoneToFind(name, ':');
    }
    if line == name + ": " + value {
      assert line == Field(name, value);
      FieldParts(name, value);
    } else if line == name + ":" + value {
      assert line == name + ([':'] + value);
      IndexOfFirst(name, ':', value);
      assert line[|name| + 1..] == value;
    }
  }

  /** Comments, fields of other names and ids with a NUL in them are passed over. */
  lemma IgnoredLineReads(line: string, rest: string, p: Pending, lastId: string)
    requires IsOneLine(line) && DropCr(line) == line != ""
    requires line[0] == ':'
          || (!IsField(line, "event") && !IsField(line, "data") && !IsField(line, "id"))
          || (IsField(line, "id") && '\U{0}' in FieldValue(line))
    ensures Read(line + ("\n" + rest), p, lastId) == Read(rest, p, lastId)
  {
    LineReads(line, rest);
    FieldNameIff(line, "event");
    FieldNameIff(line, "data");
    FieldNameIff(line, "id");
  }

  /** Any other id is taken for this event and the ones after it. */
  lemma IdLineReads(id: string, rest: string, p: Pending, lastId: string)
    requires IsOneLine(id) && DropCr(id) == id && '\U{0}' !in id
    ensures Read("id: " + id + ("\n" + rest), p, lastId) == Read(rest, p.(id := id), id)
  {
    FieldReads("id", id, rest, p, lastId);
    assert "id: " + id == Field("id", id);
  }
}
