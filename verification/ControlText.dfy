/** How pane output travels to a control client: octal escapes, one message a line
    (control.c). */
module ControlText {
  import GridCells

  type byte = GridCells.byte

  const BACKSLASH: byte := 0x5c
  const SPACE: byte := 0x20
  const NEWLINE: byte := 0x0a

  predicate MustEscape(b: byte) {
    b < SPACE || b == BACKSLASH
  }

  /** \%03o */
  function EscapeByte(b: byte): seq<byte> {
    if MustEscape(b) then [BACKSLASH, 0x30 + b / 64, 0x30 + b / 8 % 8, 0x30 + b % 8] else [b]
  }

  function Escape(bs: seq<byte>): seq<byte> {
    if bs == [] then [] else EscapeByte(bs[0]) + Escape(bs[1..])
  }

  predicate Octal(b: byte) {
    0x30 <= b <= 0x37
  }

  /** What a client makes of a payload. */
  function Unescape(bs: seq<byte>): seq<byte> {
    if bs == [] then []
    else if bs[0] == BACKSLASH && |bs| >= 4 && Octal(bs[1]) && Octal(bs[2]) && Octal(bs[3]) && bs[1] <= 0x33 then
      [64 * (bs[1] - 0x30) + 8 * (bs[2] - 0x30) + (bs[3] - 0x30)] + Unescape(bs[4..])
    else [bs[0]] + Unescape(bs[1..])
  }

  lemma OctalDigits(b: byte)
    ensures b / 64 <= 3 && b / 8 % 8 <= 7 && b % 8 <= 7
    ensures 64 * (b / 64) + 8 * (b / 8 % 8) + b % 8 == b
  {
  }

  lemma UnescapeByte(b: byte, rest: seq<byte>)
    ensures Unescape(EscapeByte(b) + rest) == [b] + Unescape(rest)
  {
    var bs := EscapeByte(b) + rest;
    if MustEscape(b) {
      OctalDigits(b);
      assert bs[4..] == rest;
    } else {
      assert bs[1..] == rest;
    }
  }

  /** Undoing the escapes gives back the bytes of the pane. */
  lemma {:induction false} UnescapeEscape(bs: seq<byte>)
    ensures Unescape(Escape(bs)) == bs
  {
    if bs != [] {
      UnescapeEscape(bs[1..]);
      UnescapeByte(bs[0], Escape(bs[1..]));
      assert [bs[0]] + bs[1..] == bs;
    }
  }

  /** No byte below a space is ever sent, so a message is one line. */
  lemma {:induction false} EscapePrintable(bs: seq<byte>)
    ensures forall b :: b in Escape(bs) ==> b >= SPACE
  {
    if bs != [] {
      EscapePrintable(bs[1..]);
      OctalDigits(bs[0]);
    }
  }

  lemma {:induction false} EscapeConcat(a: seq<byte>, b: seq<byte>)
    ensures Escape(a + b) == Escape(a) + Escape(b)
  {
    hide EscapeByte;
    if a == [] {
      assert a + b == b;
    } else {
      var t := a[1..];
      EscapeConcat(t, b);
      assert (a + b)[0] == a[0] && (a + b)[1..] == t + b;
      assert Escape(a + b) == EscapeByte(a[0]) + Escape(t + b);
      Joined(EscapeByte(a[0]), Escape(t), Escape(b));
    }
  }

  lemma Joined(a: seq<byte>, b: seq<byte>, c: seq<byte>)
    ensures a + (b + c) == a + b + c
  {
  }

  lemma {:induction false} EscapePlain(bs: seq<byte>)
    requires forall b :: b in bs ==> !MustEscape(b)
    ensures Escape(bs) == bs
  {
    if bs != [] {
      EscapePlain(bs[1..]);
      assert [bs[0]] + bs[1..] == bs;
    }
  }

  lemma {:induction false} EscapeLonger(bs: seq<byte>)
    ensures |Escape(bs)| >= |bs|
    ensures |Escape(bs)| == |bs| ==> forall b :: b in bs ==> 0x20 <= b && b != 0x5c
  {
    if bs != [] {
      EscapeLonger(bs[1..]);
      assert |Escape(bs)| == |EscapeByte(bs[0])| + |Escape(bs[1..])|;
      assert forall b :: b in bs ==> b == bs[0] || b in bs[1..];
    }
  }

  /** Exactly the payloads of bytes that are no control bytes and no backslashes go as they are. */
  lemma EscapeUnchangedIff(bs: seq<byte>)
    ensures Escape(bs) == bs <==> forall b :: b in bs ==> 0x20 <= b && b != 0x5c
  {
    EscapeLonger(bs);
    if forall b :: b in bs ==> 0x20 <= b && b != 0x5c {
      EscapePlain(bs);
    }
  }

  lemma EscapeOne(b: byte)
    ensures Escape([b]) == EscapeByte(b)
  {
    assert [b][1..] == [];
    assert Escape([b][1..]) == [];
  }

  /** The copying loop of control_append_data: runs of plain bytes at once, the others
      escaped one by one. */
  method AppendEscaped(message: seq<byte>, bs: seq<byte>) returns (out: seq<byte>)
    ensures out == message + Escape(bs)
  {
    hide Escape, EscapeByte;
    out := message;
    var i := 0;
    EscapeEmpty();
    while i < |bs|
      invariant i <= |bs|
      invariant out == message + Escape(bs[..i])
    {
      ghost var was := bs[..i];
      if MustEscape(bs[i]) {
        assert bs[..i + 1] == was + [bs[i]];
        EscapeConcat(was, [bs[i]]);
        EscapeOne(bs[i]);
        out := out + EscapeByte(bs[i]);
      } else {
        var start := i;
        while i + 1 < |bs| && !MustEscape(bs[i + 1])
          invariant start <= i < |bs|
          invariant forall k :: start <= k <= i ==> !MustEscape(bs[k])
        {
          i := i + 1;
        }
        assert bs[..i + 1] == was + bs[start..i + 1];
        EscapeConcat(was, bs[start..i + 1]);
        EscapePlain(bs[start..i + 1]);
        out := out + bs[start..i + 1];
      }
      i := i + 1;
    }
    assert bs[..i] == bs;
  }

  lemma EscapeEmpty()
    ensures Escape([]) == []
  {
  }

  /** %u */
  function Decimal(n: nat): seq<byte> {
    if n < 10 then [0x30 + n] else Decimal(n / 10) + [0x30 + n % 10]
  }

  lemma {:induction false} DecimalPrintable(n: nat)
    ensures forall b :: b in Decimal(n) ==> b >= SPACE
  {
    if n >= 10 {
      DecimalPrintable(n / 10);
    }
  }

  function Code(c: char): (b: byte)
    requires c < 128 as char
    ensures b == c as int
  {
    c as int
  }

  function Ascii(s: string): (r: seq<byte>)
    requires forall i :: 0 <= i < |s| ==> s[i] < 128 as char
    ensures |r| == |s| && forall i :: 0 <= i < |s| ==> r[i] == s[i] as int
  {
    seq(|s|, i requires 0 <= i < |s| => Code(s[i]))
  }

  function PauseText(pane: nat): seq<byte> {
    Ascii("%pause %") + Decimal(pane)
  }

  function ContinueText(pane: nat): seq<byte> {
    Ascii("%continue %") + Decimal(pane)
  }

  /** The kind of a message: one for clients that asked to be paused says how far behind it
      is. */
  datatype Heading = Simple | Aged(age: nat)

  /** What a message starts with. */
  function Header(head: Heading, pane: nat): seq<byte> {
    match head
    case Simple => Ascii("%output %") + Decimal(pane) + [SPACE]
    case Aged(age) => Ascii("%extended-output %") + Decimal(pane) + [SPACE] + Decimal(age) + Ascii(" : ")
  }

  lemma HeaderPrintable(head: Heading, pane: nat)
    ensures forall b :: b in Header(head, pane) ==> b >= SPACE
  {
    hide Decimal;
    DecimalPrintable(pane);
    match head
    case Simple => AsciiPrintable("%output %");
    case Aged(age) =>
      DecimalPrintable(age);
      AsciiPrintable("%extended-output %");
      AsciiPrintable(" : ");
  }

  lemma AsciiPrintable(s: string)
    requires forall i :: 0 <= i < |s| ==> ' ' <= s[i] < 128 as char
    ensures forall b :: b in Ascii(s) ==> b >= SPACE
  {
  }
}
