/** The scanners in place: each walks the text once, moving a pointer (format-draw.c,
    format.c). A pointer into the text is what is left of it. */
module FormatScan {
  import opened FormatText
  import opened FormatTrim

  /** format_skip */
  method SkipTo(s: string, end: string, start: nat) returns (r: Found)
    requires start <= |s|
    ensures r == Skip(s, end, start, 0)
  {
    var i, brackets := start, 0;
    while i < |s|
      invariant start <= i <= |s|
      invariant Skip(s, end, i, brackets) == Skip(s, end, start, 0)
      decreases |s| - i
    {
      if s[i] == '#' && i + 1 < |s| && s[i + 1] == '{' {
        brackets := brackets + 1;
      }
      if s[i] == '#' && i + 1 < |s| && s[i + 1] in ",#{}:" {
        i := i + 2;
        continue;
      }
      if s[i] == '}' {
        brackets := brackets - 1;
      }
      if s[i] in end && brackets == 0 {
        return At(i);
      }
      i := i + 1;
    }
    return Missing;
  }

  /** format_skip from after the #[ of a style */
  method StyleStop(style: string) returns (r: Found)
    requires |style| >= 2
    ensures r == StyleEnd(style)
  {
    r := SkipTo(style, "]", 2);
  }

  /** format_leading_hashes: the pointer goes past the #s, or to the last of them when it
      starts a style. */
  method LeadingHashes(cp: string) returns (n: nat, width: nat, end: string)
    requires cp != "" && cp[0] == '#'
    ensures n == Hashes(cp) > 0 && width == HashWidth(cp)
    ensures end == if OpensStyle(cp) then cp[n - 1..] else cp[n..]
  {
    n := 0;
    assert cp[0..] == cp;
    while n < |cp| && cp[n] == '#'
      invariant n <= |cp| && Hashes(cp) == n + Hashes(cp[n..])
      invariant n == 0 ==> cp[0] == '#'
    {
      assert cp[n..][1..] == cp[n + 1..];
      n := n + 1;
    }
    if n == |cp| || cp[n] != '[' {
      width := if n % 2 == 0 then n / 2 else n / 2 + 1;
      return n, width, cp[n..];
    }
    width := n / 2;
    if n % 2 == 0 {
      return n, width, cp[n..];
    }
    return n, width, cp[n - 1..];
  }

  /** format_width */
  method FormatWidth(expanded: string) returns (width: nat)
    ensures width == Width(expanded)
  {
    hide Tokens, HashWidth, Columns, Ends, Rest;
    var cp := expanded;
    width := 0;
    NothingSaid();
    while cp != ""
      invariant Tokens(expanded).whole == Tokens(cp).whole
      invariant Columns(expanded) == width + Columns(cp)
      decreases |cp|
    {
      if cp[0] == '#' {
        HashColumns(cp);
        var leading, rest, whole := PassHashes(cp);
        if !whole {
          return 0;
        }
        width := width + leading;
        cp := rest;
      } else if Printable(cp[0]) {
        CharColumns(cp);
        width := width + 1;
        cp := cp[1..];
      } else {
        CharColumns(cp);
        cp := cp[1..];
      }
    }
  }

  lemma NothingSaid()
    ensures Tokens("") == Scan([], true) && Columns("") == 0
  {
  }

  lemma CharColumns(cp: string)
    requires cp != "" && cp[0] != '#'
    ensures Tokens(cp).whole == Tokens(cp[1..]).whole
    ensures Columns(cp) == Columns(cp[1..]) + if Printable(cp[0]) then 1 else 0
  {
    if Printable(cp[0]) {
      TextConcat([Char(cp[0])], Tokens(cp[1..]).tokens);
      TextOne(Char(cp[0]));
    }
  }

  lemma HashColumns(cp: string)
    requires cp != "" && cp[0] == '#'
    ensures if !Ends(cp) then !Tokens(cp).whole
            else Tokens(cp).whole == Tokens(Rest(cp)).whole && Columns(cp) == HashWidth(cp) + Columns(Rest(cp))
  {
    hide Tokens, StyleEnd, Text, HashWidth, Rest;
    TokensHashes(cp, Hashes(cp));
    if Ends(cp) {
      var ts := RunTokens(cp);
      TextConcat(ts, Tokens(Rest(cp)).tokens);
    }
  }

  lemma RunTokens(cp: string) returns (ts: seq<Token>)
    requires cp != "" && cp[0] == '#' && Ends(cp)
    ensures Tokens(cp) == Then(ts, Tokens(Rest(cp))) && |Text(ts)| == HashWidth(cp)
  {
    hide Tokens, StyleEnd, Text, HashWidth;
    var n, w := Hashes(cp), HashWidth(cp);
    TextChars('#', w);
    ts := Chars('#', w);
    if OpensStyle(cp) {
      var e := StyleEnd(cp[n - 1..]).i;
      StyleAfter(cp, e);
      ts := ts + [Style(cp[n - 1..][2..e])];
      ThenThen(Chars('#', w), [Style(cp[n - 1..][2..e])], Tokens(cp[n - 1..][e + 1..]));
      TextConcat(Chars('#', w), [Style(cp[n - 1..][2..e])]);
      TextOne(Style(cp[n - 1..][2..e]));
    } else {
      RunPlain(cp);
    }
  }

  lemma RunPlain(cp: string)
    requires cp != "" && cp[0] == '#' && !OpensStyle(cp)
    ensures Tokens(cp) == Then(Chars('#', HashWidth(cp)), Tokens(cp[Hashes(cp)..]))
  {
    hide Tokens, StyleEnd;
    TokensHashes(cp, Hashes(cp));
  }

  /** Whether the style that the #s open, if they do, has an end. */
  predicate Ends(cp: string)
    requires cp != "" && cp[0] == '#'
  {
    OpensStyle(cp) ==> StyleEnd(cp[Hashes(cp) - 1..]).At?
  }

  /** What is left after the #s and the style they open. */
  function Rest(cp: string): (r: string)
    requires cp != "" && cp[0] == '#' && Ends(cp)
    ensures |r| < |cp|
  {
    var n := Hashes(cp);
    if OpensStyle(cp) then cp[n - 1..][StyleEnd(cp[n - 1..]).i + 1..] else cp[n..]
  }

  /** A run of #s in format_width, with the style it opens. */
  method PassHashes(cp: string) returns (width: nat, rest: string, whole: bool)
    requires cp != "" && cp[0] == '#'
    ensures width == HashWidth(cp) && whole == Ends(cp) && (whole ==> rest == Rest(cp))
  {
    hide StyleEnd, HashWidth;
    var n;
    n, width, rest := LeadingHashes(cp);
    HashAgain(cp);
    whole := true;
    if rest != "" && rest[0] == '#' {
      var e := StyleStop(rest);
      if e == Missing {
        return width, rest, false;
      }
      rest := rest[e.i + 1..];
    }
  }

  /** What is written of a run of #s of which `w` columns are kept, with its style. */
  function Prefix(cp: string, w: nat): string
    requires cp != "" && cp[0] == '#' && Ends(cp)
  {
    var n := Hashes(cp);
    HashText(n, w) + if OpensStyle(cp) then cp[n - 1..][..StyleEnd(cp[n - 1..]).i + 1] else ""
  }

  /** The copying of a run of #s in format_trim_left and format_trim_right. */
  method CopyHashes(cp: string, w: nat, n: nat, end: string) returns (out: string, rest: string, whole: bool)
    requires cp != "" && cp[0] == '#' && n == Hashes(cp) && end == if OpensStyle(cp) then cp[n - 1..] else cp[n..]
    ensures whole == Ends(cp)
    ensures if whole then out == Prefix(cp, w) && rest == Rest(cp) else out == HashText(n, w)
  {
    hide StyleEnd, HashWidth;
    out := "";
    if w != 0 {
      if n == 1 {
        out := out + "#";
      } else {
        out := out + Repeat('#', 2 * w);
      }
    }
    assert out == HashText(n, w);
    hide HashText;
    rest, whole := end, true;
    HashAgain(cp);
    Add(out, "", "");
    if rest != "" && rest[0] == '#' {
      var e := StyleStop(rest);
      if e == Missing {
        return out, rest, false;
      }
      out := out + rest[..e.i + 1];
      rest := rest[e.i + 1..];
    }
  }

  /** A run of #s in format_trim_left with `room` columns to go: the columns it takes, what is
      written of it, and what is left to scan. */
  method TrimLeftHashes(cp: string, room: nat) returns (piece: string, w: nat, rest: string, whole: bool)
    requires cp != "" && cp[0] == '#' && room > 0
    ensures w <= room && (whole ==> |rest| < |cp|)
    ensures TrimLeft(cp, room) == if whole then piece + TrimLeft(rest, room - w) else piece
  {
    hide HashText, HashWidth, TrimLeft, Ends, Rest, Prefix;
    TrimLeftTurn(cp, room);
    var n, leading, end := LeadingHashes(cp);
    if leading > room {
      leading := room;
    }
    w := leading;
    piece, rest, whole := CopyHashes(cp, w, n, end);
  }

  /** format_trim_left */
  method FormatTrimLeft(expanded: string, limit: nat) returns (out: string)
    ensures out == TrimLeft(expanded, limit)
  {
    hide TrimLeft;
    var cp, width := expanded, 0;
    out := "";
    Add("", "", TrimLeft(cp, limit));
    while cp != ""
      invariant width <= limit && out + TrimLeft(cp, limit - width) == TrimLeft(expanded, limit)
      decreases |cp|
    {
      TrimLeftTurn(cp, limit - width);
      if width >= limit {
        Add(out, "", "");
        return;
      }
      if cp[0] == '#' {
        var piece, w, rest, whole := TrimLeftHashes(cp, limit - width);
        width := width + w;
        if !whole {
          out := out + piece;
          return;
        }
        Add(out, piece, TrimLeft(rest, limit - width));
        out := out + piece;
        cp := rest;
      } else if Printable(cp[0]) {
        Add(out, [cp[0]], TrimLeft(cp[1..], limit - width - 1));
        if width + 1 <= limit {
          out := out + [cp[0]];
        }
        width := width + 1;
        cp := cp[1..];
      } else {
        cp := cp[1..];
      }
    }
    TrimLeftTurn("", limit - width);
    Add(out, "", "");
  }

  lemma Add(a: string, b: string, c: string)
    ensures a + (b + c) == a + b + c && a + "" == a && "" + c == c
  {
  }

  /** A run of #s in format_trim_right at column `width`, of which the first `skip` go. */
  method TrimRightHashes(cp: string, skip: nat, width: nat) returns (piece: string, w: nat, rest: string, whole: bool)
    requires cp != "" && cp[0] == '#'
    ensures whole ==> |rest| < |cp|
    ensures TrimRight(cp, Left(skip, width)) == if whole then piece + TrimRight(rest, Left(skip, width + w)) else piece
  {
    hide HashText, HashWidth, TrimRight, Ends, Rest, Prefix;
    TrimRightTurn(cp, Left(skip, width));
    var n, leading, end := LeadingHashes(cp);
    var copy := leading;
    if width <= skip {
      if skip - width >= copy {
        copy := 0;
      } else {
        copy := copy - (skip - width);
      }
    }
    w := leading;
    piece, rest, whole := CopyHashes(cp, copy, n, end);
  }

  /** format_trim_right */
  method FormatTrimRight(expanded: string, limit: nat) returns (out: string)
    ensures out == TrimTo(expanded, limit)
  {
    hide TrimRight, Width;
    var total_width := FormatWidth(expanded);
    if total_width <= limit {
      return expanded;
    }
    var skip := total_width - limit;
    var cp: string, width: nat := expanded, 0;
    out := "";
    Add("", "", TrimRight(cp, skip));
    while cp != ""
      invariant out + TrimRight(cp, Left(skip, width)) == TrimRight(expanded, skip)
      decreases |cp|
    {
      TrimRightTurn(cp, Left(skip, width));
      if cp[0] == '#' {
        var piece, w, rest, whole := TrimRightHashes(cp, skip, width);
        width := width + w;
        if !whole {
          out := out + piece;
          return;
        }
        Add(out, piece, TrimRight(rest, Left(skip, width)));
        out := out + piece;
        cp := rest;
      } else if Printable(cp[0]) {
        Add(out, [cp[0]], TrimRight(cp[1..], 0));
        if width >= skip {
          out := out + [cp[0]];
        }
        width := width + 1;
        cp := cp[1..];
      } else {
        cp := cp[1..];
      }
    }
    TrimRightTurn("", Left(skip, width));
    Add(out, "", "");
  }

  /** What is still to be skipped. */
  function Left(skip: nat, width: nat): nat {
    if width >= skip then 0 else skip - width
  }

  /** format_quote_style */
  method FormatQuoteStyle(s: string) returns (out: string)
    ensures out == Quote(s)
  {
    var cp := s;
    out := "";
    while cp != ""
      invariant out + Quote(cp) == Quote(s)
      decreases |cp|
    {
      ghost var had := out;
      if cp[0] == '#' {
        out := out + "#";
      }
      out := out + [cp[0]];
      assert had + ((if cp[0] == '#' then "##" else [cp[0]]) + Quote(cp[1..])) == out + Quote(cp[1..]);
      cp := cp[1..];
    }
  }

  /** After the #s the pointer is at another # exactly when a style starts there. */
  lemma HashAgain(cp: string)
    requires cp != "" && cp[0] == '#'
    ensures var n := Hashes(cp);
            if OpensStyle(cp) then n > 0 && |cp[n - 1..]| >= 2 && cp[n - 1..][0] == '#' else cp[n..] != "" ==> cp[n..][0] != '#'
  {
  }

  lemma TrimLeftTurn(s: string, left: nat)
    ensures s == "" || left == 0 ==> TrimLeft(s, left) == ""
    ensures s != "" && left > 0 && s[0] != '#' ==>
              TrimLeft(s, left) == if Printable(s[0]) then [s[0]] + TrimLeft(s[1..], left - 1) else TrimLeft(s[1..], left)
    ensures s != "" && left > 0 && s[0] == '#' ==>
              var w := Min(HashWidth(s), left);
              TrimLeft(s, left) == if Ends(s) then Prefix(s, w) + TrimLeft(Rest(s), left - w) else HashText(Hashes(s), w)
  {
    hide StyleEnd, HashText, HashWidth;
    if s != "" && left > 0 && s[0] == '#' && !OpensStyle(s) {
      Add(HashText(Hashes(s), Min(HashWidth(s), left)), "", "");
    }
  }

  lemma TrimRightTurn(s: string, skip: nat)
    ensures s == "" ==> TrimRight(s, skip) == ""
    ensures s != "" && s[0] != '#' ==>
              TrimRight(s, skip)
              == if !Printable(s[0]) then TrimRight(s[1..], skip)
                 else if skip == 0 then [s[0]] + TrimRight(s[1..], 0) else TrimRight(s[1..], skip - 1)
    ensures s != "" && s[0] == '#' ==>
              var w := HashWidth(s);
              var copy, more := if skip >= w then 0 else w - skip, if skip >= w then skip - w else 0;
              TrimRight(s, skip) == if Ends(s) then Prefix(s, copy) + TrimRight(Rest(s), more) else HashText(Hashes(s), copy)
  {
    hide StyleEnd, HashText, HashWidth;
    if s != "" && s[0] == '#' && !OpensStyle(s) {
      var w := HashWidth(s);
      Add(HashText(Hashes(s), if skip >= w then 0 else w - skip), "", "");
    }
  }

  /** format_draw_many, on the section being drawn */
  method DrawMany(d: Drawn, ch: char, n: nat) returns (r: Drawn)
    requires |d.texts| == SECTIONS
    ensures r == Put(d, Repeat(ch, n))
  {
    r := d;
    assert d.texts[d.current] + Repeat(ch, 0) == d.texts[d.current];
    assert d.texts[d.current := d.texts[d.current]] == d.texts;
    for i := 0 to n
      invariant |r.texts| == SECTIONS && r == Put(d, Repeat(ch, i))
    {
      PutTwice(d, Repeat(ch, i), [ch]);
      assert Repeat(ch, i) + [ch] == Repeat(ch, i + 1);
      r := Put(r, [ch]);
    }
  }

  lemma PutTwice(d: Drawn, a: string, b: string)
    requires |d.texts| == SECTIONS
    ensures Put(Put(d, a), b) == Put(d, a + b)
  {
    assert d.texts[d.current] + a + b == d.texts[d.current] + (a + b);
    assert Put(Put(d, a), b).texts == Put(d, a + b).texts;
  }

  lemma {:induction false} DrawRun(c: char, n: nat, rest: seq<Token>, d: Drawn, chooser: Chooser)
    requires |d.texts| == SECTIONS
    ensures Draw(Chars(c, n) + rest, d, chooser) == Draw(rest, Put(d, Repeat(c, n)), chooser)
  {
    assert forall i :: 0 <= i < n ==> Chars(c, n)[i] == Letters(Repeat(c, n))[i];
    assert Chars(c, n) == Letters(Repeat(c, n));
    DrawLetters(Repeat(c, n), d, chooser);
    DrawConcat(Chars(c, n), rest, d, chooser);
  }

  /** The walk of format_draw over the text, styles choosing the section. Its own counting of
      #s comes to the same as that of format_leading_hashes. Nothing is drawn at all when a
      style never ends. */
  method FormatDraw(expanded: string, chooser: Chooser) returns (d: Drawn, whole: bool)
    ensures whole == Tokens(expanded).whole
    ensures d == DrawnOf(expanded, chooser)
  {
    hide Tokens, StyleEnd, Draw;
    var cp := expanded;
    d := BLANK;
    while cp != ""
      invariant |d.texts| == SECTIONS && Tokens(cp).whole == Tokens(expanded).whole
      invariant Draw(Tokens(cp).tokens, d, chooser) == Draw(Tokens(expanded).tokens, BLANK, chooser)
      decreases |cp|
    {
      if cp[0] == '#' && |cp| > 1 && cp[1] != '[' {
        cp, d := DrawHashes(cp, d, chooser);
      } else if cp[0] != '#' || |cp| == 1 || cp[1] != '[' {
        DrawChar(cp, d, chooser);
        if Printable(cp[0]) {
          d := Put(d, [cp[0]]);
        }
        cp := cp[1..];
      } else {
        var e := StyleStop(cp);
        DrawStyle(cp, d, chooser);
        if e == Missing {
          return BLANK, false;
        }
        d := Choose(d, cp[2..e.i], chooser);
        cp := cp[e.i + 1..];
      }
    }
    DrawNothing(d, chooser);
    whole := true;
  }

  /** format_draw at #s that are not just the start of a style. */
  method DrawHashes(cp: string, d: Drawn, chooser: Chooser) returns (rest: string, r: Drawn)
    requires |cp| > 1 && cp[0] == '#' && cp[1] != '[' && |d.texts| == SECTIONS
    ensures |rest| < |cp| && |r.texts| == SECTIONS && Tokens(rest).whole == Tokens(cp).whole
    ensures Draw(Tokens(rest).tokens, r, chooser) == Draw(Tokens(cp).tokens, d, chooser)
  {
    hide Tokens, StyleEnd, Draw, Put;
    var n := 1;
    assert Hashes(cp) == 1 + Hashes(cp[1..]);
    while n < |cp| && cp[n] == '#'
      invariant 1 <= n <= |cp| && Hashes(cp) == n + Hashes(cp[n..])
    {
      assert cp[n..][1..] == cp[n + 1..];
      n := n + 1;
    }
    assert Hashes(cp) == n;
    TokensHashes(cp, n);
    var even := n % 2 == 0;
    if n == |cp| || cp[n] != '[' {
      rest := cp[n..];
      var many := if even then n / 2 else n / 2 + 1;
      DrawRun('#', many, Tokens(rest).tokens, d, chooser);
      r := DrawMany(d, '#', many);
      return;
    }
    r := DrawMany(d, '#', n / 2);
    if even {
      rest := cp[n + 1..];
      DrawRun('#', n / 2, Tokens(cp[n..]).tokens, d, chooser);
      assert cp[n..][1..] == rest;
      DrawChar(cp[n..], r, chooser);
      r := PutChar(r, '[');
    } else {
      rest := cp[n - 1..];
      assert cp == Repeat('#', 2 * (n / 2)) + rest;
      EvenRun(n / 2, rest);
      DrawRun('#', n / 2, Tokens(rest).tokens, d, chooser);
    }
  }

  /** utf8_set and screen_write_cell */
  method PutChar(d: Drawn, c: char) returns (r: Drawn)
    requires |d.texts| == SECTIONS
    ensures r == Put(d, [c])
  {
    r := Put(d, [c]);
  }

  lemma DrawNothing(d: Drawn, chooser: Chooser)
    requires |d.texts| == SECTIONS
    ensures Tokens("") == Scan([], true) && Draw([], d, chooser) == d
  {
  }

  lemma DrawChar(cp: string, d: Drawn, chooser: Chooser)
    requires |d.texts| == SECTIONS && cp != "" && (cp[0] != '#' || |cp| == 1)
    ensures Tokens(cp[1..]).whole == Tokens(cp).whole
    ensures Draw(Tokens(cp).tokens, d, chooser)
            == Draw(Tokens(cp[1..]).tokens, if Printable(cp[0]) then Put(d, [cp[0]]) else d, chooser)
  {
    if cp[0] == '#' {
      assert cp == "#" + "" && cp[1..] == "";
      OneHash("");
      DrawRun('#', 1, Tokens("").tokens, d, chooser);
      assert Repeat('#', 1) == ['#'];
    } else if Printable(cp[0]) {
      var rest := Tokens(cp[1..]).tokens;
      assert ([Char(cp[0])] + rest)[1..] == rest;
    }
  }

  lemma DrawStyle(cp: string, d: Drawn, chooser: Chooser)
    requires |d.texts| == SECTIONS && StartsStyle(cp)
    ensures match StyleEnd(cp)
            case Missing => !Tokens(cp).whole
            case At(e) =>
              && Tokens(cp[e + 1..]).whole == Tokens(cp).whole
              && Draw(Tokens(cp).tokens, d, chooser) == Draw(Tokens(cp[e + 1..]).tokens, Choose(d, cp[2..e], chooser), chooser)
  {
    hide Tokens, StyleEnd;
    TokensStyle(cp);
    if StyleEnd(cp).At? {
      var e := StyleEnd(cp).i;
      var rest := Tokens(cp[e + 1..]).tokens;
      assert ([Style(cp[2..e])] + rest)[1..] == rest;
    }
  }
}
