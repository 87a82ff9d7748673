/** Server-sent events: the frames the dashboard writes (internal/web/sse.go:42-82, 104-112) and the reader
    of event streams (internal/agent/opencode.go:79-148), after section 9.2.6 of the WHATWG HTML Living
    Standard. */
module Sse {
  import opened Options

  // ---------------------------------------------------------------------------------------------
  // Writing
  // ---------------------------------------------------------------------------------------------

  function Digit(n: nat): char
    requires n < 10
  {
    '0' + n as char
  }

  function Decimal(n: nat): string {
    if n < 10 then [Digit(n)] else Decimal(n / 10) + [Digit(n % 10)]
  }

  function Frame(kind: string, data: string, id: nat): string {
    "event: " + kind + "\n" + "data: " + data + "\n" + "id: " + Decimal(id) + "\n" + "retry: 1000\n\n"
  }

  const KEEPALIVE := ":\n\n"

  /** What the connection loop sends: the payload of an event, or a keepalive on a tick. */
  datatype Item = Payload(kind: string, data: string) | Tick

  /** The stream for the items, with ids counted up from `id`. */
  function Written(items: seq<Item>, id: nat): string {
    if items == [] then ""
    else
      match items[0]
      case Tick => KEEPALIVE + Written(items[1..], id)
      case Payload(kind, data) => Frame(kind, data, id) + Written(items[1..], id + 1)
  }

  /** The connection loop: a frame per event, numbered from 1, the first being the snapshot. */
  method Serve(snapshot: Item, items: seq<Item>) returns (stream: string)
    requires snapshot.Payload?
    ensures stream == Written([snapshot] + items, 1)
  {
    stream := Frame(snapshot.kind, snapshot.data, 1);
    var id := 2;
    ghost var all := [snapshot] + items;
    assert all[1..] == items;
    for i := 0 to |items|
      invariant Written(all, 1) == stream + Written(items[i..], id)
    {
      ghost var before := stream;
      assert items[i..][1..] == items[i + 1..];
      match items[i] {
        case Tick =>
          stream := stream + KEEPALIVE;
          assert before + (KEEPALIVE + Written(items[i + 1..], id)) == stream + Written(items[i + 1..], id);
        case Payload(kind, data) =>
          stream := stream + Frame(kind, data, id);
          id := id + 1;
          assert before + (Frame(kind, data, id - 1) + Written(items[i + 1..], id)) == stream + Written(items[i + 1..], id);
      }
    }
    assert items[|items|..] == [];
  }

  // ---------------------------------------------------------------------------------------------
  // Reading
  // ---------------------------------------------------------------------------------------------

  datatype Event = Event(kind: string, data: string, id: string)

  /** The event under construction; it has data once there is a data line. */
  datatype Pending = Pending(kind: string, id: string, dataLines: seq<string>)

  datatype Outcome = Outcome(event: Option<Event>, rest: string, lastId: string)

  /** The position of the first c, or the length. */
  function IndexOf(s: string, c: char): (i: nat)
    ensures i <= |s|
  {
    if s == "" || s[0] == c then 0 else 1 + IndexOf(s[1..], c)
  }

  function DropCr(line: string): string {
    if line != "" && line[|line| - 1] == '\r' then line[..|line| - 1] else line
  }

  /** The next line of an input that is not empty. */
  function FirstLine(input: string): string {
    DropCr(input[..IndexOf(input, '\n')])
  }

  function AfterLine(input: string): (rest: string)
    requires input != ""
    ensures |rest| < |input|
  {
    var end := IndexOf(input, '\n');
    if end < |input| then input[end + 1..] else ""
  }

  function JoinLines(lines: seq<string>): string {
    if lines == [] then "" else if |lines| == 1 then lines[0] else lines[0] + "\n" + JoinLines(lines[1..])
  }

  function Finished(p: Pending, lastId: string): Event {
    Event(if p.kind == "" then "message" else p.kind, JoinLines(p.dataLines), if p.id == "" then lastId else p.id)
  }

  function Start(lastId: string): Pending {
    Pending("message", lastId, [])
  }

  function FieldName(line: string): string {
    line[..IndexOf(line, ':')]
  }

  function FieldValue(line: string): string {
    var colon := IndexOf(line, ':');
    if colon == |line| then ""
    else
      var value := line[colon + 1..];
      if value != "" && value[0] == ' ' then value[1..] else value
  }

  /** The effect of one field line on the pending event and on the last id. */
  function Took(name: string, value: string, p: Pending, lastId: string): (Pending, string) {
    if name == "event" then (p.(kind := value), lastId)
    else if name == "data" then (p.(dataLines := p.dataLines + [value]), lastId)
    else if name == "id" && '\U{0}' !in value then (p.(id := value), value)
    else (p, lastId)
  }

  /** Reads lines up to the end of an event or of the input. */
  function Read(input: string, p: Pending, lastId: string): Outcome
    decreases |input|
  {
    if input == "" then Outcome(if p.dataLines == [] then None else Some(Finished(p, lastId)), "", lastId)
    else
      var line, rest := FirstLine(input), AfterLine(input);
      if line == "" then
        if p.dataLines == [] then Read(rest, Start(lastId), lastId)
        else Outcome(Some(Finished(p, lastId)), rest, lastId)
      else if line[0] == ':' then Read(rest, p, lastId)
      else
        var (q, id) := Took(FieldName(line), FieldValue(line), p, lastId);
        Read(rest, q, id)
  }

  class Reader {
    var input: string
    var lastEventId: string

    constructor (input: string)
      ensures this.input == input && lastEventId == ""
    {
      this.input := input;
      lastEventId := "";
    }

    /** The next event, or None at the end of the stream. */
    method Next() returns (event: Option<Event>)
      modifies this
      ensures Outcome(event, input, lastEventId) == Read(old(input), Start(old(lastEventId)), old(lastEventId))
    {
      var kind, id := "message", lastEventId;
      var dataLines: seq<string> := [];
      while true
        invariant Read(input, Pending(kind, id, dataLines), lastEventId) == Read(old(input), Start(old(lastEventId)), old(lastEventId))
        decreases |input|
      {
        if input == "" {
          if dataLines == [] {
            return None;
          }
          return Some(Finished(Pending(kind, id, dataLines), lastEventId));
        }
        var line := FirstLine(input);
        input := AfterLine(input);
        if line == "" {
          if dataLines == [] {
            kind, id := "message", lastEventId;
            continue;
          }
          return Some(Finished(Pending(kind, id, dataLines), lastEventId));
        }
        if line[0] == ':' {
          continue;
        }
        var field, value := FieldName(line), FieldValue(line);
        if field == "event" {
          kind := value;
        } else if field == "data" {
          dataLines := dataLines + [value];
        } else if field == "id" {
          if '\U{0}' !in value {
            id := value;
            lastEventId := value;
          }
        }
      }
    }
  }

  /** Everything that repeated reading returns before the end of the stream. */
  function ReadAll(input: string, lastId: string): seq<Event>
    decreases |input|
  {
    var out := Read(input, Start(lastId), lastId);
    ReadShrinks(input, Start(lastId), lastId);
    if out.event.None? then [] else [out.event.value] + ReadAll(out.rest, out.lastId)
  }

  lemma {:induction false} ReadShrinks(input: string, p: Pending, lastId: string)
    ensures |Read(input, p, lastId).rest| <= |input|
    ensures p.dataLines == [] && Read(input, p, lastId).event.Some? ==> |Read(input, p, lastId).rest| < |input|
    decreases |input|
  {
    if input != "" {
      var line, rest := FirstLine(input), AfterLine(input);
      if line == "" {
        ReadShrinks(rest, Start(lastId), lastId);
      } else if line[0] == ':' {
        ReadShrinks(rest, p, lastId);
      } else {
        var (q, id) := Took(FieldName(line), FieldValue(line), p, lastId);
        ReadShrinks(rest, q, id);
      }
    }
  }
}
