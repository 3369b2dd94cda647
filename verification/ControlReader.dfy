/** The other end: a client that reads what it is sent line by line, and what it makes of it:
    which pane a line is of, how old it is, and the bytes of the pane (control.c). */
module ControlReader {
  import opened ControlText
  import opened ControlQueue
  import opened ControlSteps
  import opened ControlClient

  /** A line of the output, read. */
  datatype Reading =
    | Output(pane: nat, data: seq<byte>)
    | Delayed(pane: nat, age: nat, data: seq<byte>)
    | Paused(pane: nat)
    | Continued(pane: nat)
    | Other

  const OUTPUT := Ascii("%output %")
  const DELAYED := Ascii("%extended-output %")
  const PAUSED := Ascii("%pause %")
  const CONTINUED := Ascii("%continue %")
  const COLON := Ascii(" : ")

  predicate Digit(b: byte) {
    0x30 <= b <= 0x39
  }

  /** The number some bytes go on with, `n` having been read of it, and what comes after. */
  function ReadNumber(bs: seq<byte>, n: nat): (r: (nat, seq<byte>))
    ensures |r.1| <= |bs|
  {
    if bs != [] && Digit(bs[0]) then ReadNumber(bs[1..], 10 * n + (bs[0] - 0x30)) else (n, bs)
  }

  /** One line, its end left out. */
  function Read(line: seq<byte>): Reading {
    if OUTPUT <= line then ReadOutput(line[|OUTPUT|..])
    else if DELAYED <= line then ReadDelayed(line[|DELAYED|..])
    else if PAUSED <= line then
      var (pane, rest) := ReadNumber(line[|PAUSED|..], 0);
      if rest == [] then Paused(pane) else Other
    else if CONTINUED <= line then
      var (pane, rest) := ReadNumber(line[|CONTINUED|..], 0);
      if rest == [] then Continued(pane) else Other
    else Other
  }

  function ReadOutput(bs: seq<byte>): Reading {
    var (pane, rest) := ReadNumber(bs, 0);
    if rest != [] && rest[0] == SPACE then Output(pane, Unescape(rest[1..])) else Other
  }

  function ReadDelayed(bs: seq<byte>): Reading {
    var (pane, rest) := ReadNumber(bs, 0);
    if rest == [] || rest[0] != SPACE then Other
    else
      var (age, more) := ReadNumber(rest[1..], 0);
      if COLON <= more then Delayed(pane, age, Unescape(more[|COLON|..])) else Other
  }

  /** Whole lines, without their ends; what comes after the last end is not read yet. */
  function Lines(bs: seq<byte>, line: seq<byte>): seq<seq<byte>> {
    if bs == [] then []
    else if bs[0] == NEWLINE then [line] + Lines(bs[1..], [])
    else Lines(bs[1..], line + [bs[0]])
  }

  function ReadAll(lines: seq<seq<byte>>): (r: seq<Reading>)
    ensures |r| == |lines| && forall i :: 0 <= i < |lines| ==> r[i] == Read(lines[i])
  {
    seq(|lines|, i requires 0 <= i < |lines| => Read(lines[i]))
  }

  predicate IsOutput(r: Reading) {
    r.Output? || r.Delayed?
  }

  /** What a client has of a pane: the bytes of the lines of that pane. */
  function BytesOf(readings: seq<Reading>, p: nat): seq<byte> {
    if readings == [] then []
    else
      var r := readings[|readings| - 1];
      BytesOf(readings[..|readings| - 1], p) + if IsOutput(r) && r.pane == p then r.data else []
  }

  // ----- One line

  lemma {:induction false} ReadDecimal(n: nat, rest: seq<byte>)
    ensures ReadNumber(Decimal(n) + rest, 0) == ReadNumber(rest, n)
    decreases n
  {
    if n < 10 {
      assert (Decimal(n) + rest)[1..] == rest;
    } else {
      var d := [0x30 + n % 10];
      assert Decimal(n) + rest == Decimal(n / 10) + (d + rest);
      ReadDecimal(n / 10, d + rest);
      assert (d + rest)[1..] == rest;
    }
  }

  /** A number is read back as it was written. */
  lemma ReadWhole(n: nat, rest: seq<byte>)
    requires rest == [] || !Digit(rest[0])
    ensures ReadNumber(Decimal(n) + rest, 0) == (n, rest)
  {
    ReadDecimal(n, rest);
  }

  lemma WordsApart(rest: seq<byte>)
    ensures !(OUTPUT <= DELAYED + rest) && !(OUTPUT <= PAUSED + rest) && !(OUTPUT <= CONTINUED + rest)
    ensures !(DELAYED <= PAUSED + rest) && !(DELAYED <= CONTINUED + rest) && !(PAUSED <= CONTINUED + rest)
  {
    assert OUTPUT[1] == 'o' as int && DELAYED[1] == 'e' as int && PAUSED[1] == 'p' as int && CONTINUED[1] == 'c' as int;
    assert (DELAYED + rest)[1] == DELAYED[1] && (PAUSED + rest)[1] == PAUSED[1] && (CONTINUED + rest)[1] == CONTINUED[1];
  }

  lemma AfterWord(word: seq<byte>, rest: seq<byte>)
    ensures word <= word + rest && (word + rest)[|word|..] == rest
  {
  }

  lemma ReadSimple(p: nat, data: seq<byte>)
    ensures ReadOutput(Decimal(p) + ([SPACE] + Escape(data))) == Output(p, data)
  {
    hide Decimal, Escape, Unescape, ReadNumber;
    var rest := [SPACE] + Escape(data);
    UnescapeEscape(data);
    ReadWhole(p, rest);
    assert rest[1..] == Escape(data);
  }

  lemma ReadAged(p: nat, age: nat, data: seq<byte>)
    ensures ReadDelayed(Decimal(p) + ([SPACE] + (Decimal(age) + (COLON + Escape(data))))) == Delayed(p, age, data)
  {
    hide Decimal, Escape, Unescape, ReadNumber;
    var more := COLON + Escape(data);
    var rest := [SPACE] + (Decimal(age) + more);
    UnescapeEscape(data);
    ReadWhole(age, more);
    ReadWhole(p, rest);
    assert rest[1..] == Decimal(age) + more;
    AfterWord(COLON, Escape(data));
  }

  lemma Assoc(a: seq<byte>, b: seq<byte>, c: seq<byte>, d: seq<byte>, e: seq<byte>, f: seq<byte>)
    ensures a + b + c + d == a + (b + (c + d))
    ensures a + b + c + d + e + f == a + (b + (c + (d + (e + f))))
  {
  }

  lemma HeaderSplit(head: Heading, p: nat, data: seq<byte>)
    ensures Header(head, p) + data
            == match head
               case Simple => OUTPUT + (Decimal(p) + ([SPACE] + data))
               case Aged(age) => DELAYED + (Decimal(p) + ([SPACE] + (Decimal(age) + (COLON + data))))
  {
    hide Decimal;
    match head
    case Simple => Assoc(OUTPUT, Decimal(p), [SPACE], data, [], []);
    case Aged(age) => Assoc(DELAYED, Decimal(p), [SPACE], Decimal(age), COLON, data);
  }

  /** The line of a message is read as output of its pane, with the age it was begun with, and
      after undoing the escapes as exactly the bytes put in it. */
  lemma ReadMessage(head: Heading, p: nat, data: seq<byte>)
    ensures Read(Header(head, p) + Escape(data))
            == match head case Simple => Output(p, data) case Aged(age) => Delayed(p, age, data)
  {
    hide Decimal, Escape, Header, ReadOutput, ReadDelayed;
    match head
    case Simple =>
      var rest := Decimal(p) + ([SPACE] + Escape(data));
      ReadSimple(p, data);
      AfterWord(OUTPUT, rest);
      HeaderSplit(head, p, Escape(data));
    case Aged(age) =>
      var rest := Decimal(p) + ([SPACE] + (Decimal(age) + (COLON + Escape(data))));
      ReadAged(p, age, data);
      AfterWord(DELAYED, rest);
      WordsApart(rest);
      HeaderSplit(head, p, Escape(data));
  }

  /** So are the lines that say that a pane is paused or goes on. */
  lemma ReadNotes(p: nat)
    ensures Read(PauseText(p)) == Paused(p) && Read(ContinueText(p)) == Continued(p)
  {
    hide Decimal, ReadNumber;
    ReadWhole(p, []);
    assert Decimal(p) + [] == Decimal(p);
    WordsApart(Decimal(p));
    assert PauseText(p) == PAUSED + Decimal(p) && ContinueText(p) == CONTINUED + Decimal(p);
  }

  // ----- All lines

  predicate OneLine(text: seq<byte>) {
    forall b :: b in text ==> b != NEWLINE
  }

  lemma {:induction false} LinesMore(text: seq<byte>, rest: seq<byte>, line: seq<byte>)
    requires OneLine(text)
    ensures Lines(text + [NEWLINE] + rest, line) == [line + text] + Lines(rest, [])
  {
    var bs := text + [NEWLINE] + rest;
    if text == [] {
      assert bs[1..] == rest && line + text == line;
    } else {
      assert text[0] in text && forall b :: b in text[1..] ==> b in text;
      assert bs[0] == text[0] && bs[1..] == text[1..] + [NEWLINE] + rest;
      LinesMore(text[1..], rest, line + [text[0]]);
      assert line + [text[0]] + text[1..] == line + text;
    }
  }

  /** A line given to the client that can be told from output. */
  predicate Telling(text: seq<byte>) {
    OneLine(text) && !IsOutput(Read(text))
  }

  predicate AllTelling(log: seq<Event>) {
    forall i :: 0 <= i < |log| && log[i].Line? ==> Telling(log[i].text)
  }

  /** The line of an event. */
  function LineOf(e: Event): seq<byte> {
    match e
    case Line(_, text) => text
    case Message(p, head, parts) => Header(head, p) + Escape(PartsData(parts))
  }

  function LinesOf(log: seq<Event>): (r: seq<seq<byte>>)
    ensures |r| == |log| && forall i :: 0 <= i < |log| ==> r[i] == LineOf(log[i])
  {
    seq(|log|, i requires 0 <= i < |log| => LineOf(log[i]))
  }

  lemma EventLine(e: Event)
    requires e.Line? ==> OneLine(e.text)
    ensures Rendered(e) == LineOf(e) + [NEWLINE] && OneLine(LineOf(e))
  {
    if e.Message? {
      HeaderPrintable(e.head, e.pane);
      EscapePrintable(PartsData(e.parts));
    }
  }

  lemma {:induction false} RenderLines(log: seq<Event>, rest: seq<byte>)
    requires AllTelling(log)
    ensures Lines(Render(log) + rest, []) == LinesOf(log) + Lines(rest, [])
  {
    hide Lines, Rendered, LineOf;
    if log == [] {
      assert Render(log) + rest == rest;
      assert LinesOf(log) + Lines(rest, []) == Lines(rest, []);
    } else {
      var before, e := log[..|log| - 1], log[|log| - 1];
      EventLine(e);
      var more := LineOf(e) + [NEWLINE] + rest;
      assert Render(log) + rest == Render(before) + more;
      RenderLines(before, more);
      LinesMore(LineOf(e), rest, []);
      assert [] + LineOf(e) == LineOf(e);
      assert LinesOf(log) == LinesOf(before) + [LineOf(e)];
      assert LinesOf(before) + ([LineOf(e)] + Lines(rest, [])) == LinesOf(log) + Lines(rest, []);
    }
  }

  /** The lines read are the events written, one for one. */
  lemma LinesRead(log: seq<Event>)
    requires AllTelling(log)
    ensures Lines(Render(log), []) == LinesOf(log)
  {
    RenderLines(log, []);
    assert Render(log) + [] == Render(log);
    assert LinesOf(log) + [] == LinesOf(log);
  }

  /** And under the number of each pane exactly its bytes are read. */
  lemma {:induction false} BytesRead(log: seq<Event>, p: nat)
    requires AllTelling(log)
    ensures BytesOf(ReadAll(LinesOf(log)), p) == Received(log, p)
  {
    hide Read, LineOf;
    if log != [] {
      var before, e := log[..|log| - 1], log[|log| - 1];
      BytesRead(before, p);
      assert ReadAll(LinesOf(log))[..|log| - 1] == ReadAll(LinesOf(before));
      ReadEvent(e);
    }
  }

  lemma ReadEvent(e: Event)
    ensures match e
            case Line(_, text) => Read(LineOf(e)) == Read(text)
            case Message(p, head, parts) =>
              Read(LineOf(e)) == match head
                                 case Simple => Output(p, PartsData(parts))
                                 case Aged(age) => Delayed(p, age, PartsData(parts))
  {
    if e.Message? {
      ReadMessage(e.head, e.pane, PartsData(e.parts));
    }
  }

  // ----- A client object and its reader

  lemma {:induction false} SaidTelling(log: seq<Event>)
    requires forall text :: text in Said(log) ==> Telling(text)
    ensures AllTelling(log)
  {
    if log != [] {
      var before, e := log[..|log| - 1], log[|log| - 1];
      SaidTelling(before);
      forall i | 0 <= i < |log| && log[i].Line?
        ensures Telling(log[i].text)
      {
        if i < |before| {
          assert log[i] == before[i];
        }
      }
    }
  }

  /** What the client has in its output buffer, read line by line: of every pane, since its
      output last started afresh, exactly the bytes the pane wrote from there to the offset the
      client has for it; as long as no line the client is given reads as output. */
  lemma ClientRead(c: Client, p: nat)
    requires c.Valid() && p in c.panes && forall text :: text in c.issued ==> Telling(text)
    ensures p in c.trace && p in c.windows
    ensures var readings, tr := ReadAll(Lines(c.sent, [])), c.trace[p];
            && tr.mark <= |readings| && tr.origin <= c.panes[p].offset <= |c.windows[p].input|
            && BytesOf(readings[tr.mark..], p) == c.windows[p].input[tr.origin..c.panes[p].offset]
  {
    hide Queues, Listed, InOrder, Quiet, Lines, Read, Render, ReadAll, Received, BytesOf, Telling;
    var log, tr := c.log, c.trace[p];
    assert Delivered(c.St(), p);
    assert forall text :: text in Said(log) ==> text in c.issued;
    SaidTelling(log);
    LinesRead(log);
    BytesRead(log[tr.mark..], p);
    assert ReadAll(LinesOf(log))[tr.mark..] == ReadAll(LinesOf(log[tr.mark..]));
  }
}
