/** What trimming writes, piece by piece, and when a reader takes it apart again: runs of #
    that were apart may meet when the characters between them are not printed
    (format-draw.c). */
module FormatJoins {
  import opened FormatText

  /** A character, a # on its own, #s in pairs, or a whole style. */
  datatype Piece = Letter(c: char) | Lone | Pairs(w: nat) | Mark(text: string)

  function Written(p: Piece): string {
    match p
    case Letter(c) => [c]
    case Lone => "#"
    case Pairs(w) => Repeat('#', 2 * w)
    case Mark(text) => text
  }

  function Meant(p: Piece): seq<Token> {
    match p
    case Letter(c) => [Char(c)]
    case Lone => [Char('#')]
    case Pairs(w) => Chars('#', w)
    case Mark(text) => if |text| >= 3 then [Style(text[2..|text| - 1])] else []
  }

  function Emit(ps: seq<Piece>): string {
    if ps == [] then "" else Written(ps[0]) + Emit(ps[1..])
  }

  function Mean(ps: seq<Piece>): seq<Token> {
    if ps == [] then [] else Meant(ps[0]) + Mean(ps[1..])
  }

  predicate SoundPiece(p: Piece) {
    match p
    case Letter(c) => Printable(c) && c != '#'
    case Lone => true
    case Pairs(w) => true
    case Mark(text) => StartsStyle(text) && |text| >= 3 && StyleEnd(text) == At(|text| - 1)
  }

  predicate Sound(ps: seq<Piece>) {
    ps == [] || (SoundPiece(ps[0]) && Sound(ps[1..]))
  }

  /** With nothing but pairs before it comes another lone #, a [ or a style. */
  predicate Hit(ps: seq<Piece>) {
    ps != [] &&
    match ps[0]
    case Letter(c) => c == '['
    case Lone => true
    case Pairs(_) => Hit(ps[1..])
    case Mark(_) => true
  }

  /** A lone # meets one of these. */
  predicate Meets(ps: seq<Piece>) {
    ps != [] && ((ps[0].Lone? && Hit(ps[1..])) || Meets(ps[1..]))
  }

  // ----- The #s at the start

  function Tail(ps: seq<Piece>): seq<Piece> {
    if ps != [] && (ps[0].Lone? || ps[0].Pairs?) then Tail(ps[1..]) else ps
  }

  function Lones(ps: seq<Piece>): nat {
    if ps != [] && (ps[0].Lone? || ps[0].Pairs?) then (if ps[0].Lone? then 1 else 0) + Lones(ps[1..]) else 0
  }

  function Twos(ps: seq<Piece>): nat {
    if ps != [] && (ps[0].Lone? || ps[0].Pairs?) then (if ps[0].Lone? then 0 else ps[0].w) + Twos(ps[1..]) else 0
  }

  predicate Opens(ps: seq<Piece>) {
    ps != [] && (ps[0].Mark? || ps[0] == Letter('['))
  }

  lemma {:induction false} GroupMeets(ps: seq<Piece>)
    ensures Hit(ps) <==> Lones(ps) >= 1 || Opens(Tail(ps))
    ensures Meets(ps) <==> Lones(ps) >= 2 || (Lones(ps) == 1 && Opens(Tail(ps))) || Meets(Tail(ps))
  {
    if ps != [] && (ps[0].Lone? || ps[0].Pairs?) {
      GroupMeets(ps[1..]);
    }
  }

  lemma {:induction false} GroupSound(ps: seq<Piece>)
    requires Sound(ps)
    ensures Sound(Tail(ps)) && |Tail(ps)| <= |ps|
    ensures Tail(ps) != [] ==> Tail(ps)[0].Letter? || Tail(ps)[0].Mark?
  {
    if ps != [] && (ps[0].Lone? || ps[0].Pairs?) {
      GroupSound(ps[1..]);
    }
  }

  lemma RepeatConcat(a: nat, b: nat, rest: string)
    ensures Repeat('#', a) + (Repeat('#', b) + rest) == Repeat('#', a + b) + rest
  {
  }

  lemma CharsConcat(a: nat, b: nat, rest: seq<Token>)
    ensures Chars('#', a) + (Chars('#', b) + rest) == Chars('#', a + b) + rest
  {
  }

  lemma PieceHashes(p: Piece)
    requires p.Lone? || p.Pairs?
    ensures Written(p) == Repeat('#', if p.Lone? then 1 else 2 * p.w)
    ensures Meant(p) == Chars('#', if p.Lone? then 1 else p.w)
  {
  }

  lemma GroupHead(ps: seq<Piece>)
    requires ps != [] && (ps[0].Lone? || ps[0].Pairs?)
    ensures var n, w, r := if ps[0].Lone? then 1 else 2 * ps[0].w, if ps[0].Lone? then 1 else ps[0].w, ps[1..];
            && Emit(ps) == Repeat('#', n) + Emit(r) && Mean(ps) == Chars('#', w) + Mean(r) && Tail(ps) == Tail(r)
            && 2 * Twos(ps) + Lones(ps) == n + (2 * Twos(r) + Lones(r)) && Twos(ps) + Lones(ps) == w + (Twos(r) + Lones(r))
  {
    PieceHashes(ps[0]);
    hide Written, Meant;
  }

  lemma {:induction false} GroupEmit(ps: seq<Piece>)
    ensures Emit(ps) == Repeat('#', 2 * Twos(ps) + Lones(ps)) + Emit(Tail(ps))
    ensures Mean(ps) == Chars('#', Twos(ps) + Lones(ps)) + Mean(Tail(ps))
  {
    if ps != [] && (ps[0].Lone? || ps[0].Pairs?) {
      GroupEmit(ps[1..]);
      GroupMore(ps);
    } else {
      assert Repeat('#', 0) + Emit(ps) == Emit(ps);
      assert Chars('#', 0) + Mean(ps) == Mean(ps);
    }
  }

  lemma GroupMore(ps: seq<Piece>)
    requires ps != [] && (ps[0].Lone? || ps[0].Pairs?)
    requires Emit(ps[1..]) == Repeat('#', 2 * Twos(ps[1..]) + Lones(ps[1..])) + Emit(Tail(ps[1..]))
    requires Mean(ps[1..]) == Chars('#', Twos(ps[1..]) + Lones(ps[1..])) + Mean(Tail(ps[1..]))
    ensures Emit(ps) == Repeat('#', 2 * Twos(ps) + Lones(ps)) + Emit(Tail(ps))
    ensures Mean(ps) == Chars('#', Twos(ps) + Lones(ps)) + Mean(Tail(ps))
  {
    hide Emit, Mean, Repeat, Chars, Tail, Lones, Twos;
    var p, r := ps[0], ps[1..];
    GroupHead(ps);
    RepeatConcat(if p.Lone? then 1 else 2 * p.w, 2 * Twos(r) + Lones(r), Emit(Tail(ps)));
    CharsConcat(if p.Lone? then 1 else p.w, Twos(r) + Lones(r), Mean(Tail(ps)));
  }

  // ----- How a run of #s reads, by what follows it

  lemma RunAlone(n: nat)
    ensures Tokens(Repeat('#', n)) == Scan(Chars('#', (n + 1) / 2), true)
  {
    hide Tokens;
    TokensNone();
    if n > 0 {
      assert Repeat('#', n) + "" == Repeat('#', n);
      HashesOf(n, "");
      TokensHashes(Repeat('#', n), n);
      assert Repeat('#', n)[n..] == "";
      assert Chars('#', (n + 1) / 2) + [] == Chars('#', (n + 1) / 2);
    }
  }

  lemma RunThen(n: nat, c: char, r: string)
    requires c != '#'
    ensures var s := Repeat('#', n) + ([c] + r); Hashes(s) == n && s[n] == c && s[n..] == [c] + r && |s| > n
    ensures n > 0 ==> (Repeat('#', n) + ([c] + r))[0] == '#' && (Repeat('#', n) + ([c] + r))[n - 1..] == "#" + ([c] + r)
  {
    HashesOf(n, [c] + r);
  }

  lemma RunLetter(n: nat, c: char, r: string)
    requires c != '#' && Printable(c) && (c == '[' ==> n % 2 == 0)
    ensures Tokens(Repeat('#', n) + ([c] + r)) == Then(Chars('#', (n + 1) / 2), Then([Char(c)], Tokens(r)))
  {
    hide Tokens;
    TokensChar(c, r);
    var s := Repeat('#', n) + ([c] + r);
    if n > 0 {
      RunThen(n, c, r);
      TokensHashes(s, n);
    } else {
      assert s == [c] + r;
      NoHashes(Tokens([c] + r));
    }
  }

  /** An odd run in front of a [ opens a style that was not meant. */
  lemma RunBracket(n: nat, r: string)
    requires n % 2 == 1
    ensures var t := Tokens(Repeat('#', n) + ("[" + r));
            t == Scan(Chars('#', n / 2), false)
            || exists text, rest :: t == Then(Chars('#', n / 2), Then([Style(text)], Tokens(rest)))
  {
    hide Tokens, StyleEnd;
    var s := Repeat('#', n) + ("[" + r);
    RunThen(n, '[', r);
    TokensHashes(s, n);
    var style := s[n - 1..];
    match StyleEnd(style)
    case Missing =>
    case At(e) =>
      ThenThen(Chars('#', n / 2), [Style(style[2..e])], Tokens(style[e + 1..]));
  }

  lemma RunMark(n: nat, text: string, r: string)
    requires SoundPiece(Mark(text))
    ensures n % 2 == 0 ==>
              Tokens(Repeat('#', n) + (text + r)) == Then(Chars('#', n / 2), Then([Style(text[2..|text| - 1])], Tokens(r)))
    ensures n % 2 == 1 ==>
              exists rest :: Tokens(Repeat('#', n) + (text + r)) == Then(Chars('#', n / 2 + 1), Then([Char('[')], Tokens(rest)))
  {
    hide Tokens, StyleEnd;
    var e := |text| - 1;
    assert text[..e + 1] == text;
    StyleFirst(text, r);
    if n % 2 == 0 {
      EvenRun(n / 2, text + r);
    } else {
      var rest := text[2..] + r;
      assert text + r == "#" + ("[" + rest);
      assert Repeat('#', n) + (text + r) == Repeat('#', n + 1) + ("[" + rest);
      RunLetter(n + 1, '[', rest);
    }
  }

  /** Where two sequences leave their #s tells them apart. */
  lemma RunsApart(a: nat, x: Token, r: seq<Token>, b: nat, y: Token, t: seq<Token>)
    requires x != Char('#') && y != Char('#')
    ensures Chars('#', a) + ([x] + r) == Chars('#', b) + ([y] + t) <==> a == b && x == y && r == t
  {
    var s, u := Chars('#', a) + ([x] + r), Chars('#', b) + ([y] + t);
    if s == u {
      assert s[a] == x && u[b] == y;
      assert s[a + 1..] == r && u[b + 1..] == t;
    }
  }

  // ----- When the pieces read as they were meant

  ghost predicate Exact(ps: seq<Piece>) {
    Tokens(Emit(ps)) == Scan(Mean(ps), true)
  }

  lemma EmptyExact(ps: seq<Piece>)
    requires Tail(ps) == []
    ensures Exact(ps) <==> Lones(ps) <= 1
  {
    hide Tokens, Twos, Lones, Tail;
    var e, k := Twos(ps), Lones(ps);
    GroupEmit(ps);
    RunAlone(2 * e + k);
    assert Repeat('#', 2 * e + k) + "" == Repeat('#', 2 * e + k);
    assert Chars('#', e + k) + [] == Chars('#', e + k);
    if Exact(ps) {
      assert |Chars('#', (2 * e + k + 1) / 2)| == |Chars('#', e + k)|;
    }
  }

  /** A run of #s in front of a character, read as it was meant or not. */
  lemma LetterRun(e: nat, k: nat, c: char, r: string, meant: seq<Token>)
    requires c != '#' && Printable(c)
    ensures Tokens(Repeat('#', 2 * e + k) + ([c] + r)) == Scan(Chars('#', e + k) + ([Char(c)] + meant), true)
            <==> Tokens(r) == Scan(meant, true) && (k == 0 || (k == 1 && c != '['))
  {
    hide Tokens;
    var n := 2 * e + k;
    var t := Tokens(Repeat('#', n) + ([c] + r));
    if c == '[' && k % 2 == 1 {
      RunBracket(n, r);
      if t == Scan(Chars('#', e + k) + ([Char(c)] + meant), true) {
        var text, rest :| t == Then(Chars('#', n / 2), Then([Style(text)], Tokens(rest)));
        RunsApart(n / 2, Style(text), Tokens(rest).tokens, e + k, Char(c), meant);
      }
    } else {
      RunLetter(n, c, r);
      RunsApart((n + 1) / 2, Char(c), Tokens(r).tokens, e + k, Char(c), meant);
    }
  }

  /** And in front of a style. */
  lemma MarkRun(e: nat, k: nat, text: string, r: string, meant: seq<Token>)
    requires SoundPiece(Mark(text))
    ensures Tokens(Repeat('#', 2 * e + k) + (text + r))
            == Scan(Chars('#', e + k) + ([Style(text[2..|text| - 1])] + meant), true)
            <==> Tokens(r) == Scan(meant, true) && k == 0
  {
    hide Tokens, StyleEnd;
    var n := 2 * e + k;
    var mark := Style(text[2..|text| - 1]);
    var t := Tokens(Repeat('#', n) + (text + r));
    RunMark(n, text, r);
    if k % 2 == 0 {
      RunsApart(n / 2, mark, Tokens(r).tokens, e + k, mark, meant);
    } else if t == Scan(Chars('#', e + k) + ([mark] + meant), true) {
      var rest :| t == Then(Chars('#', n / 2 + 1), Then([Char('[')], Tokens(rest)));
      RunsApart(n / 2 + 1, Char('['), Tokens(rest).tokens, e + k, mark, meant);
    }
  }

  lemma LetterExact(ps: seq<Piece>)
    requires Sound(ps) && Tail(ps) != [] && Tail(ps)[0].Letter?
    ensures Exact(ps) <==> Exact(Tail(ps)[1..]) && (Lones(ps) == 0 || (Lones(ps) == 1 && Tail(ps)[0].c != '['))
  {
    hide Tokens, Twos, Lones, Tail;
    var t := Tail(ps);
    GroupEmit(ps);
    GroupSound(ps);
    LetterRun(Twos(ps), Lones(ps), t[0].c, Emit(t[1..]), Mean(t[1..]));
  }

  lemma MarkExact(ps: seq<Piece>)
    requires Sound(ps) && Tail(ps) != [] && Tail(ps)[0].Mark?
    ensures Exact(ps) <==> Exact(Tail(ps)[1..]) && Lones(ps) == 0
  {
    hide Tokens, Twos, Lones, Tail;
    var t := Tail(ps);
    GroupEmit(ps);
    GroupSound(ps);
    MarkRun(Twos(ps), Lones(ps), t[0].text, Emit(t[1..]), Mean(t[1..]));
  }

  /** What is written reads as it was meant exactly when no lone # meets another, a [ or a
      style. */
  lemma {:induction false} EmitExact(ps: seq<Piece>)
    requires Sound(ps)
    ensures Exact(ps) <==> !Meets(ps)
    decreases |ps|
  {
    hide Exact;
    var t := Tail(ps);
    GroupMeets(ps);
    GroupSound(ps);
    if t == [] {
      EmptyExact(ps);
    } else {
      EmitExact(t[1..]);
      if t[0].Letter? {
        LetterExact(ps);
      } else {
        MarkExact(ps);
      }
    }
  }
}
