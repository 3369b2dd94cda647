/** Measuring, trimming, quoting and drawing agree (format-draw.c, format.c). */
module FormatTrim {
  import opened FormatText
  import opened FormatJoins

  /** format_trim_right */
  function TrimTo(s: string, limit: nat): string {
    if Width(s) <= limit then s else TrimRight(s, Width(s) - limit)
  }

  // ----- The pieces a trim writes

  function HashPieces(n: nat, w: nat): seq<Piece> {
    if w == 0 then [] else if n == 1 then [Lone] else [Pairs(w)]
  }

  /** What format_trim_left writes. */
  function LeftPieces(s: string, left: nat): seq<Piece>
    decreases |s|
  {
    if s == "" || left == 0 then []
    else if s[0] != '#' then
      if Printable(s[0]) then [Letter(s[0])] + LeftPieces(s[1..], left - 1) else LeftPieces(s[1..], left)
    else
      var n := Hashes(s);
      var w := Min(HashWidth(s), left);
      if OpensStyle(s) then
        var style := s[n - 1..];
        match StyleEnd(style)
        case Missing => HashPieces(n, w)
        case At(e) => HashPieces(n, w) + ([Mark(style[..e + 1])] + LeftPieces(style[e + 1..], left - w))
      else HashPieces(n, w) + LeftPieces(s[n..], left - w)
  }

  /** What format_trim_right writes with `skip` columns to be left out. */
  function RightPieces(s: string, skip: nat): seq<Piece>
    decreases |s|
  {
    if s == "" then []
    else if s[0] != '#' then
      if !Printable(s[0]) then RightPieces(s[1..], skip)
      else if skip == 0 then [Letter(s[0])] + RightPieces(s[1..], 0)
      else RightPieces(s[1..], skip - 1)
    else
      var n := Hashes(s);
      var w := HashWidth(s);
      var copy := if skip >= w then 0 else w - skip;
      var rest := if skip >= w then skip - w else 0;
      if OpensStyle(s) then
        var style := s[n - 1..];
        match StyleEnd(style)
        case Missing => HashPieces(n, copy)
        case At(e) => HashPieces(n, copy) + ([Mark(style[..e + 1])] + RightPieces(style[e + 1..], rest))
      else HashPieces(n, copy) + RightPieces(s[n..], rest)
  }

  lemma PiecesFirst(p: Piece, ps: seq<Piece>)
    ensures Emit([p] + ps) == Written(p) + Emit(ps) && Mean([p] + ps) == Meant(p) + Mean(ps)
    ensures Sound([p] + ps) <==> SoundPiece(p) && Sound(ps)
    ensures Meets([p] + ps) <==> (p.Lone? && Hit(ps)) || Meets(ps)
  {
    assert ([p] + ps)[1..] == ps;
  }

  /** The pieces of a run of `n` #s, `w` of its columns. */
  lemma HashFirst(n: nat, w: nat, ps: seq<Piece>)
    requires n == 1 ==> w <= 1
    ensures Emit(HashPieces(n, w) + ps) == HashText(n, w) + Emit(ps)
    ensures Mean(HashPieces(n, w) + ps) == Chars('#', w) + Mean(ps)
    ensures Sound(HashPieces(n, w) + ps) <==> Sound(ps)
    ensures Meets(HashPieces(n, w) + ps) <==> (n == 1 && w > 0 && Hit(ps)) || Meets(ps)
  {
    if w == 0 {
      assert [] + ps == ps;
      assert "" + Emit(ps) == Emit(ps) && Chars('#', 0) + Mean(ps) == Mean(ps);
    } else {
      PiecesFirst(if n == 1 then Lone else Pairs(w), ps);
    }
  }

  lemma MarkFirst(style: string, e: nat, ps: seq<Piece>)
    requires StartsStyle(style) && StyleEnd(style) == At(e)
    ensures var p := Mark(style[..e + 1]);
            && SoundPiece(p) && Meant(p) == [Style(style[2..e])]
            && Emit([p] + ps) == style[..e + 1] + Emit(ps) && Mean([p] + ps) == [Style(style[2..e])] + Mean(ps)
            && (Sound([p] + ps) <==> Sound(ps)) && (Meets([p] + ps) <==> Meets(ps)) && Hit([p] + ps)
  {
    hide Skip;
    PiecesFirst(Mark(style[..e + 1]), ps);
    MarkEnds(style, e);
    assert style[..e + 1][2..e] == style[2..e];
  }

  lemma MarkEnds(style: string, e: nat)
    requires StartsStyle(style) && StyleEnd(style) == At(e)
    ensures StartsStyle(style[..e + 1]) && StyleEnd(style[..e + 1]) == At(e)
  {
    assert style[..e + 1][..e + 1] == style[..e + 1];
    SkipPrefix(style, style[..e + 1], 2, 0, e + 1);
  }

  lemma HashBound(s: string)
    requires s != "" && s[0] == '#'
    ensures Hashes(s) > 0 && (Hashes(s) == 1 ==> HashWidth(s) <= 1) && (OpensStyle(s) && Hashes(s) == 1 ==> HashWidth(s) == 0)
  {
  }

  /** A style that starts after its run of #s, and what comes after it. */
  lemma StyleAfter(s: string, e: nat)
    requires s != "" && s[0] == '#' && OpensStyle(s) && StyleEnd(s[Hashes(s) - 1..]) == At(e)
    ensures var style := s[Hashes(s) - 1..];
            Tokens(s) == Then(Chars('#', HashWidth(s)), Then([Style(style[2..e])], Tokens(style[e + 1..])))
  {
    hide StyleEnd;
    TokensHashes(s, Hashes(s));
    ThenThen(Chars('#', HashWidth(s)), [Style(s[Hashes(s) - 1..][2..e])], Tokens(s[Hashes(s) - 1..][e + 1..]));
  }

  /** The pieces of a run that ends in a style, which ends at `e`. */
  function StylePieces(s: string, e: nat, w: nat, ps: seq<Piece>): seq<Piece>
    requires s != "" && s[0] == '#' && OpensStyle(s) && StyleEnd(s[Hashes(s) - 1..]) == At(e)
  {
    HashPieces(Hashes(s), w) + ([Mark(s[Hashes(s) - 1..][..e + 1])] + ps)
  }

  lemma StyleFirstPieces(s: string, e: nat, w: nat, ps: seq<Piece>)
    requires s != "" && s[0] == '#' && OpensStyle(s) && StyleEnd(s[Hashes(s) - 1..]) == At(e) && w <= HashWidth(s)
    ensures var all, style := StylePieces(s, e, w, ps), s[Hashes(s) - 1..];
            && Emit(all) == HashText(Hashes(s), w) + style[..e + 1] + Emit(ps)
            && Mean(all) == Chars('#', w) + ([Style(style[2..e])] + Mean(ps))
            && (Sound(all) <==> Sound(ps)) && (Meets(all) <==> Meets(ps))
  {
    hide StyleEnd, HashWidth, HashText, HashPieces, Emit, Mean, Sound, Meets, SoundPiece;
    var n, style := Hashes(s), s[Hashes(s) - 1..];
    IsStyle(s);
    HashBound(s);
    MarkFirst(style, e, ps);
    HashFirst(n, w, [Mark(style[..e + 1])] + ps);
    assert HashText(n, w) + style[..e + 1] + Emit(ps) == HashText(n, w) + (style[..e + 1] + Emit(ps));
  }

  /** What comes of the first run or character of a trim on the left. */
  lemma LeftStep(s: string, left: nat)
    requires s != "" && left > 0 && s[0] == '#'
    ensures var n, w := Hashes(s), Min(HashWidth(s), left);
            if !OpensStyle(s) then
              LeftPieces(s, left) == HashPieces(n, w) + LeftPieces(s[n..], left - w)
              && TrimLeft(s, left) == HashText(n, w) + TrimLeft(s[n..], left - w)
            else
              match StyleEnd(s[n - 1..])
              case Missing => LeftPieces(s, left) == HashPieces(n, w) && TrimLeft(s, left) == HashText(n, w)
              case At(e) =>
                var rest := s[n - 1..][e + 1..];
                LeftPieces(s, left) == StylePieces(s, e, w, LeftPieces(rest, left - w))
                && TrimLeft(s, left) == HashText(n, w) + s[n - 1..][..e + 1] + TrimLeft(rest, left - w)
  {
    hide StyleEnd, HashText, HashPieces, HashWidth, Hashes, OpensStyle;
  }

  lemma {:induction false} LeftWrites(s: string, left: nat)
    ensures Emit(LeftPieces(s, left)) == TrimLeft(s, left) && Sound(LeftPieces(s, left))
    decreases |s|, 1
  {
    hide StyleEnd, HashText, HashPieces, StylePieces, Emit, Mean, Sound, Meets, Written;
    PiecesNone();
    if s != "" && left > 0 {
      if s[0] != '#' {
        LeftWrites(s[1..], if Printable(s[0]) then left - 1 else left);
        PiecesFirst(Letter(s[0]), LeftPieces(s[1..], left - 1));
        LetterWritten(s[0]);
      } else {
        LeftWritesHash(s, left);
      }
    }
  }

  lemma {:induction false} LeftWritesHash(s: string, left: nat)
    requires s != "" && left > 0 && s[0] == '#'
    ensures Emit(LeftPieces(s, left)) == TrimLeft(s, left) && Sound(LeftPieces(s, left))
    decreases |s|, 0
  {
    hide StyleEnd, HashWidth, HashText, HashPieces, StylePieces, Emit, Mean, Sound, Meets, Written, LeftPieces, TrimLeft;
    var n, w := Hashes(s), Min(HashWidth(s), left);
    LeftStep(s, left);
    HashBound(s);
    PiecesNone();
    if !OpensStyle(s) {
      LeftWrites(s[n..], left - w);
      HashFirst(n, w, LeftPieces(s[n..], left - w));
    } else if StyleEnd(s[n - 1..]).At? {
      var e := StyleEnd(s[n - 1..]).i;
      var rest := s[n - 1..][e + 1..];
      LeftWrites(rest, left - w);
      StyleFirstPieces(s, e, w, LeftPieces(rest, left - w));
    } else {
      HashFirst(n, w, []);
      assert HashPieces(n, w) + [] == HashPieces(n, w) && HashText(n, w) + "" == HashText(n, w);
    }
  }

  lemma PiecesNone()
    ensures Emit([]) == "" && Mean([]) == [] && Sound([]) && !Meets([])
  {
  }

  lemma LetterWritten(c: char)
    ensures Written(Letter(c)) == [c] && Meant(Letter(c)) == [Char(c)]
  {
  }

  /** What is written on the right, run by run. */
  lemma RightStep(s: string, skip: nat)
    requires s != "" && s[0] == '#'
    ensures var n, w := Hashes(s), HashWidth(s);
            var copy, more := if skip >= w then 0 else w - skip, if skip >= w then skip - w else 0;
            if !OpensStyle(s) then
              RightPieces(s, skip) == HashPieces(n, copy) + RightPieces(s[n..], more)
              && TrimRight(s, skip) == HashText(n, copy) + TrimRight(s[n..], more)
            else
              match StyleEnd(s[n - 1..])
              case Missing => RightPieces(s, skip) == HashPieces(n, copy) && TrimRight(s, skip) == HashText(n, copy)
              case At(e) =>
                var rest := s[n - 1..][e + 1..];
                RightPieces(s, skip) == StylePieces(s, e, copy, RightPieces(rest, more))
                && TrimRight(s, skip) == HashText(n, copy) + s[n - 1..][..e + 1] + TrimRight(rest, more)
  {
    hide StyleEnd, HashText, HashPieces, HashWidth, Hashes, OpensStyle;
  }

  lemma {:induction false} RightWrites(s: string, skip: nat)
    ensures Emit(RightPieces(s, skip)) == TrimRight(s, skip) && Sound(RightPieces(s, skip))
    decreases |s|, 1
  {
    hide StyleEnd, HashText, HashPieces, StylePieces, Emit, Mean, Sound, Meets, Written;
    PiecesNone();
    if s != "" {
      if s[0] != '#' {
        RightWrites(s[1..], if Printable(s[0]) && skip > 0 then skip - 1 else skip);
        PiecesFirst(Letter(s[0]), RightPieces(s[1..], 0));
        LetterWritten(s[0]);
      } else {
        RightWritesHash(s, skip);
      }
    }
  }

  lemma {:induction false} RightWritesHash(s: string, skip: nat)
    requires s != "" && s[0] == '#'
    ensures Emit(RightPieces(s, skip)) == TrimRight(s, skip) && Sound(RightPieces(s, skip))
    decreases |s|, 0
  {
    hide StyleEnd, HashText, HashPieces, StylePieces, Emit, Mean, Sound, Meets, Written, RightPieces, TrimRight;
    var n, w := Hashes(s), HashWidth(s);
    var copy, more := if skip >= w then 0 else w - skip, if skip >= w then skip - w else 0;
    RightStep(s, skip);
    HashBound(s);
    PiecesNone();
    if !OpensStyle(s) {
      RightWrites(s[n..], more);
      HashFirst(n, copy, RightPieces(s[n..], more));
    } else if StyleEnd(s[n - 1..]).At? {
      var e := StyleEnd(s[n - 1..]).i;
      var rest := s[n - 1..][e + 1..];
      RightWrites(rest, more);
      StyleFirstPieces(s, e, copy, RightPieces(rest, more));
    } else {
      HashFirst(n, copy, []);
      assert HashPieces(n, copy) + [] == HashPieces(n, copy) && HashText(n, copy) + "" == HashText(n, copy);
    }
  }

  // ----- What the pieces mean

  lemma TokensSkip(s: string)
    requires s != "" && s[0] != '#'
    ensures Tokens(s) == if Printable(s[0]) then Then([Char(s[0])], Tokens(s[1..])) else Tokens(s[1..])
  {
  }

  /** The pieces on the left are the first characters, whatever is between them. */
  lemma {:induction false} LeftMeans(s: string, left: nat)
    ensures Text(Mean(LeftPieces(s, left))) == Take(Said(s), left)
    decreases |s|, 1
  {
    hide StyleEnd, HashPieces, StylePieces, Emit, Mean, Sound, Meets, Tokens, Text, Written;
    PiecesNone();
    TextNone();
    TokensNone();
    if s == "" || left == 0 {
      assert Take(Said(s), 0) == "";
    } else if s[0] != '#' {
      TokensSkip(s);
      if Printable(s[0]) {
        LeftMeans(s[1..], left - 1);
        PiecesFirst(Letter(s[0]), LeftPieces(s[1..], left - 1));
        LetterWritten(s[0]);
        TextConcat([Char(s[0])], Mean(LeftPieces(s[1..], left - 1)));
        TextOne(Char(s[0]));
        SaidThen([Char(s[0])], s[1..], s);
        TakeConcat([s[0]], Said(s[1..]), left);
      } else {
        LeftMeans(s[1..], left);
      }
    } else {
      LeftMeansHash(s, left);
    }
  }

  /** The first characters of a run of #s and what follows, with a style between them or
      not. */
  lemma RunTaken(h: nat, left: nat, some: seq<Token>, all: seq<Token>, style: string)
    requires Text(some) == Take(Text(all), left - Min(h, left))
    ensures Text(Chars('#', Min(h, left)) + some) == Take(Text(Chars('#', h) + all), left)
    ensures Text(Chars('#', Min(h, left)) + ([Style(style)] + some)) == Take(Text(Chars('#', h) + ([Style(style)] + all)), left)
  {
    hide Text, Take;
    var w := Min(h, left);
    TextChars('#', h);
    TextChars('#', w);
    TextConcat(Chars('#', w), some);
    TextConcat(Chars('#', h), all);
    StyleText(w, style, some);
    StyleText(h, style, all);
    TakeHashes(h, Text(all), left);
  }

  lemma {:induction false} LeftMeansHash(s: string, left: nat)
    requires s != "" && left > 0 && s[0] == '#'
    ensures Text(Mean(LeftPieces(s, left))) == Take(Said(s), left)
    decreases |s|, 0
  {
    hide StyleEnd, HashPieces, StylePieces, HashText, Emit, Mean, Sound, Meets, Tokens, Text, Take, Written, LeftPieces, TrimLeft,
      Chars, Repeat;
    var n, h, w := Hashes(s), HashWidth(s), Min(HashWidth(s), left);
    LeftStep(s, left);
    HashBound(s);
    TokensHashes(s, n);
    if !OpensStyle(s) {
      var ps := LeftPieces(s[n..], left - w);
      LeftMeans(s[n..], left - w);
      HashFirst(n, w, ps);
      RunTaken(h, left, Mean(ps), Tokens(s[n..]).tokens, "");
    } else if StyleEnd(s[n - 1..]).At? {
      var e := StyleEnd(s[n - 1..]).i;
      var rest := s[n - 1..][e + 1..];
      var ps := LeftPieces(rest, left - w);
      LeftMeans(rest, left - w);
      StyleFirstPieces(s, e, w, ps);
      StyleAfter(s, e);
      RunTaken(h, left, Mean(ps), Tokens(rest).tokens, s[n - 1..][2..e]);
    } else {
      LeftMeansMissing(s, left);
    }
  }

  lemma LeftMeansMissing(s: string, left: nat)
    requires s != "" && left > 0 && s[0] == '#' && OpensStyle(s) && StyleEnd(s[Hashes(s) - 1..]) == Missing
    ensures Text(Mean(LeftPieces(s, left))) == Take(Said(s), left)
  {
    hide StyleEnd, HashPieces, StylePieces, HashText, Emit, Mean, Sound, Meets, Tokens, Text, Take, LeftPieces, TrimLeft;
    var n, h, w := Hashes(s), HashWidth(s), Min(HashWidth(s), left);
    LeftStep(s, left);
    HashBound(s);
    TokensHashes(s, n);
    PiecesNone();
    HashFirst(n, w, []);
    Ends(HashPieces(n, w));
    Ends(Chars('#', h));
    TextNone();
    TakeNone(left - w);
    RunTaken(h, left, [], [], "");
  }

  lemma Ends<T>(s: seq<T>)
    ensures s + [] == s
  {
  }

  lemma TakeNone(k: nat)
    ensures Take("", k) == ""
  {
  }

  /** A style says nothing. */
  lemma StyleText(w: nat, style: string, more: seq<Token>)
    ensures Text(Chars('#', w) + ([Style(style)] + more)) == Repeat('#', w) + Text(more)
  {
    hide Text;
    TextConcat(Chars('#', w), [Style(style)] + more);
    TextConcat([Style(style)], more);
    TextOne(Style(style));
    TextChars('#', w);
    assert "" + Text(more) == Text(more);
  }

  /** The pieces on the right are all but the first characters, with every style. */
  lemma {:induction false} RightMeans(s: string, skip: nat)
    requires Tokens(s).whole
    ensures Mean(RightPieces(s, skip)) == Drop(Tokens(s).tokens, skip)
    decreases |s|, 1
  {
    hide StyleEnd, HashPieces, StylePieces, Emit, Mean, Sound, Meets, Tokens, Written;
    PiecesNone();
    TokensNone();
    if s == "" {
    } else if s[0] != '#' {
      TokensSkip(s);
      if Printable(s[0]) {
        RightMeans(s[1..], if skip > 0 then skip - 1 else skip);
        PiecesFirst(Letter(s[0]), RightPieces(s[1..], 0));
        LetterWritten(s[0]);
        assert ([Char(s[0])] + Tokens(s[1..]).tokens)[1..] == Tokens(s[1..]).tokens;
      } else {
        RightMeans(s[1..], skip);
      }
    } else {
      RightMeansHash(s, skip);
    }
  }

  lemma {:induction false} RightMeansHash(s: string, skip: nat)
    requires s != "" && s[0] == '#' && Tokens(s).whole
    ensures Mean(RightPieces(s, skip)) == Drop(Tokens(s).tokens, skip)
    decreases |s|, 0
  {
    hide StyleEnd, HashPieces, StylePieces, HashText, Emit, Mean, Sound, Meets, Tokens, Written, RightPieces, TrimRight, Drop;
    var n, w := Hashes(s), HashWidth(s);
    var copy, more := if skip >= w then 0 else w - skip, if skip >= w then skip - w else 0;
    RightStep(s, skip);
    HashBound(s);
    TokensHashes(s, n);
    if !OpensStyle(s) {
      RightMeans(s[n..], more);
      HashFirst(n, copy, RightPieces(s[n..], more));
      DropChars('#', w, Tokens(s[n..]).tokens, skip);
    } else if StyleEnd(s[n - 1..]).At? {
      var e := StyleEnd(s[n - 1..]).i;
      var rest := s[n - 1..][e + 1..];
      StyleAfter(s, e);
      RightMeans(rest, more);
      StyleFirstPieces(s, e, copy, RightPieces(rest, more));
      var mark, left := Style(s[n - 1..][2..e]), Tokens(rest).tokens;
      DropChars('#', w, [mark] + left, skip);
      DropMark(mark, left, more);
    }
  }

  lemma DropMark(mark: Token, left: seq<Token>, k: nat)
    requires mark.Style?
    ensures Drop([mark] + left, k) == [mark] + Drop(left, k)
  {
    assert ([mark] + left)[1..] == left;
  }

  // ----- Where the text itself makes them meet

  /** What is printed next after a # on its own, of the text up to `left` columns, would be
      read with it: another on its own, a [, or a style, maybe after #s in pairs. */
  predicate NextJoins(s: string, left: nat)
    decreases |s|
  {
    && s != "" && left > 0
    && if s[0] != '#' then (if Printable(s[0]) then s[0] == '[' else NextJoins(s[1..], left))
       else if OpensStyle(s) then StyleEnd(s[Hashes(s) - 1..]).At?
       else Hashes(s) == 1 || NextJoins(s[Hashes(s)..], left - Min(HashWidth(s), left))
  }

  /** Somewhere in the first `left` columns of the text a # on its own is, but for characters
      that are not printed, next to such. */
  predicate JoinsLeft(s: string, left: nat)
    decreases |s|
  {
    && s != "" && left > 0
    && var n := Hashes(s);
       if n == 0 then JoinsLeft(s[1..], if Printable(s[0]) then left - 1 else left)
       else if OpensStyle(s) then
         StyleEnd(s[n - 1..]).At? && JoinsLeft(s[n - 1..][StyleEnd(s[n - 1..]).i + 1..], left - Min(HashWidth(s), left))
       else (n == 1 && NextJoins(s[1..], left - 1)) || JoinsLeft(s[n..], left - Min(HashWidth(s), left))
  }

  /** The same after the first `skip` columns. */
  predicate JoinsRight(s: string, skip: nat)
    decreases |s|
  {
    && s != ""
    && var n, more := Hashes(s), if skip >= HashWidth(s) then skip - HashWidth(s) else 0;
       if n == 0 then JoinsRight(s[1..], if Printable(s[0]) && skip > 0 then skip - 1 else skip)
       else if OpensStyle(s) then
         StyleEnd(s[n - 1..]).At? && JoinsRight(s[n - 1..][StyleEnd(s[n - 1..]).i + 1..], more)
       else (n == 1 && skip == 0 && NextJoins(s[1..], |s|)) || JoinsRight(s[n..], more)
  }

  lemma HashHit(n: nat, w: nat, ps: seq<Piece>)
    requires n == 1 ==> w <= 1
    ensures Hit(HashPieces(n, w) + ps) <==> (n == 1 && w > 0) || Hit(ps)
  {
    if w == 0 {
      assert [] + ps == ps;
    } else {
      assert ([if n == 1 then Lone else Pairs(w)] + ps)[1..] == ps;
    }
  }

  lemma NextStep(s: string, left: nat)
    requires s != "" && left > 0 && s[0] == '#'
    ensures NextJoins(s, left)
            <==> if OpensStyle(s) then StyleEnd(s[Hashes(s) - 1..]).At?
                 else Hashes(s) == 1 || NextJoins(s[Hashes(s)..], left - Min(HashWidth(s), left))
  {
    hide StyleEnd, HashWidth, Hashes, OpensStyle;
  }

  lemma {:induction false} NextLeft(s: string, left: nat)
    ensures Hit(LeftPieces(s, left)) <==> NextJoins(s, left)
    decreases |s|, 1
  {
    hide StyleEnd, HashPieces;
    if s != "" && left > 0 {
      if s[0] == '#' {
        NextLeftHash(s, left);
      } else if !Printable(s[0]) {
        NextLeft(s[1..], left);
      }
    }
  }

  lemma {:induction false} NextLeftHash(s: string, left: nat)
    requires s != "" && left > 0 && s[0] == '#'
    ensures Hit(LeftPieces(s, left)) <==> NextJoins(s, left)
    decreases |s|, 0
  {
    hide StyleEnd, HashText, HashPieces, StylePieces, LeftPieces, TrimLeft, NextJoins, Hit;
    var n, w := Hashes(s), Min(HashWidth(s), left);
    HashBound(s);
    LeftStep(s, left);
    NextStep(s, left);
    if !OpensStyle(s) {
      NextLeft(s[n..], left - w);
      HashHit(n, w, LeftPieces(s[n..], left - w));
    } else {
      NextMark(s, w);
    }
  }

  lemma NextMark(s: string, w: nat)
    requires s != "" && s[0] == '#' && OpensStyle(s) && w <= HashWidth(s)
    ensures var end := StyleEnd(s[Hashes(s) - 1..]);
            if end == Missing then !Hit(HashPieces(Hashes(s), w)) else forall ps :: Hit(StylePieces(s, end.i, w, ps))
  {
    hide StyleEnd, HashPieces;
    var n, style := Hashes(s), s[Hashes(s) - 1..];
    HashBound(s);
    if StyleEnd(style) == Missing {
      HashHit(n, w, []);
      assert HashPieces(n, w) + [] == HashPieces(n, w);
    } else {
      var e := StyleEnd(style).i;
      forall ps
        ensures Hit(StylePieces(s, e, w, ps))
      {
        HashHit(n, w, [Mark(style[..e + 1])] + ps);
      }
    }
  }

  lemma {:induction false} NextRight(s: string, left: nat)
    requires left >= |s|
    ensures Hit(RightPieces(s, 0)) <==> NextJoins(s, left)
    decreases |s|, 1
  {
    hide StyleEnd, HashPieces;
    if s != "" {
      if s[0] == '#' {
        NextRightHash(s, left);
      } else if !Printable(s[0]) {
        NextRight(s[1..], left);
      }
    }
  }

  lemma WidthBound(s: string)
    requires s != "" && s[0] == '#'
    ensures HashWidth(s) <= Hashes(s) && (!OpensStyle(s) ==> HashWidth(s) > 0)
  {
  }

  lemma {:induction false} NextRightHash(s: string, left: nat)
    requires left >= |s| && s != "" && s[0] == '#'
    ensures Hit(RightPieces(s, 0)) <==> NextJoins(s, left)
    decreases |s|, 0
  {
    hide StyleEnd, HashText, HashWidth, HashPieces, StylePieces, RightPieces, TrimRight, NextJoins, Hit;
    var n, w := Hashes(s), HashWidth(s);
    HashBound(s);
    WidthBound(s);
    RightStep(s, 0);
    NextStep(s, left);
    if !OpensStyle(s) {
      NextRight(s[n..], left - w);
      HashHit(n, w, RightPieces(s[n..], 0));
    } else {
      NextMark(s, w);
    }
  }

  lemma NoneHit()
    ensures !Hit([])
  {
  }

  lemma JoinsLeftStep(s: string, left: nat)
    requires s != "" && left > 0 && s[0] == '#'
    ensures var n, w := Hashes(s), Min(HashWidth(s), left);
            JoinsLeft(s, left)
            <==> if !OpensStyle(s) then (n == 1 && NextJoins(s[1..], left - 1)) || JoinsLeft(s[n..], left - w)
                 else var end := StyleEnd(s[n - 1..]); end.At? && JoinsLeft(s[n - 1..][end.i + 1..], left - w)
  {
    hide StyleEnd, HashWidth, NextJoins;
    assert Hashes(s) > 0;
  }

  lemma {:induction false} JoinsLeftIff(s: string, left: nat)
    ensures Meets(LeftPieces(s, left)) <==> JoinsLeft(s, left)
    decreases |s|, 1
  {
    hide StyleEnd, HashPieces, Meets, Hit, NextJoins;
    PiecesNone();
    if s != "" && left > 0 {
      if s[0] != '#' {
        JoinsLeftIff(s[1..], if Printable(s[0]) then left - 1 else left);
        PiecesFirst(Letter(s[0]), LeftPieces(s[1..], left - 1));
      } else {
        JoinsLeftIffHash(s, left);
      }
    }
  }

  lemma {:induction false} JoinsLeftIffHash(s: string, left: nat)
    requires s != "" && left > 0 && s[0] == '#'
    ensures Meets(LeftPieces(s, left)) <==> JoinsLeft(s, left)
    decreases |s|, 0
  {
    hide StyleEnd, HashText, HashPieces, StylePieces, Emit, Mean, Sound, Meets, Hit, Written, LeftPieces, TrimLeft,
      NextJoins, JoinsLeft;
    var n, w := Hashes(s), Min(HashWidth(s), left);
    LeftStep(s, left);
    JoinsLeftStep(s, left);
    HashBound(s);
    PiecesNone();
    if !OpensStyle(s) {
      JoinsLeftIff(s[n..], left - w);
      NextLeft(s[n..], left - w);
      HashFirst(n, w, LeftPieces(s[n..], left - w));
    } else if StyleEnd(s[n - 1..]).At? {
      var e := StyleEnd(s[n - 1..]).i;
      JoinsLeftIff(s[n - 1..][e + 1..], left - w);
      StyleFirstPieces(s, e, w, LeftPieces(s[n - 1..][e + 1..], left - w));
    } else {
      HashFirst(n, w, []);
      NoneHit();
      assert HashPieces(n, w) + [] == HashPieces(n, w);
    }
  }

  lemma JoinsRightStep(s: string, skip: nat)
    requires s != "" && s[0] == '#'
    ensures var n, w := Hashes(s), HashWidth(s);
            var more := if skip >= w then skip - w else 0;
            JoinsRight(s, skip)
            <==> if !OpensStyle(s) then (n == 1 && skip == 0 && NextJoins(s[1..], |s|)) || JoinsRight(s[n..], more)
                 else var end := StyleEnd(s[n - 1..]); end.At? && JoinsRight(s[n - 1..][end.i + 1..], more)
  {
    hide StyleEnd, HashWidth, NextJoins;
    assert Hashes(s) > 0;
  }

  lemma {:induction false} JoinsRightIff(s: string, skip: nat)
    ensures Meets(RightPieces(s, skip)) <==> JoinsRight(s, skip)
    decreases |s|, 1
  {
    hide StyleEnd, HashPieces, Meets, Hit, NextJoins;
    PiecesNone();
    if s != "" {
      if s[0] != '#' {
        JoinsRightIff(s[1..], if Printable(s[0]) && skip > 0 then skip - 1 else skip);
        PiecesFirst(Letter(s[0]), RightPieces(s[1..], 0));
      } else {
        JoinsRightIffHash(s, skip);
      }
    }
  }

  lemma LoneWidth(s: string)
    requires s != "" && s[0] == '#' && !OpensStyle(s) && Hashes(s) == 1
    ensures HashWidth(s) == 1
  {
  }

  lemma {:induction false} JoinsRightIffHash(s: string, skip: nat)
    requires s != "" && s[0] == '#'
    ensures Meets(RightPieces(s, skip)) <==> JoinsRight(s, skip)
    decreases |s|, 0
  {
    hide StyleEnd, HashText, HashWidth, HashPieces, StylePieces, Emit, Mean, Sound, Meets, Hit, Written, RightPieces, TrimRight,
      NextJoins, JoinsRight;
    var n, w := Hashes(s), HashWidth(s);
    var copy, more := if skip >= w then 0 else w - skip, if skip >= w then skip - w else 0;
    RightStep(s, skip);
    JoinsRightStep(s, skip);
    HashBound(s);
    PiecesNone();
    if !OpensStyle(s) {
      JoinsRightIff(s[n..], more);
      if n == 1 {
        LoneWidth(s);
        NextRight(s[n..], |s|);
      }
      HashFirst(n, copy, RightPieces(s[n..], more));
    } else if StyleEnd(s[n - 1..]).At? {
      var e := StyleEnd(s[n - 1..]).i;
      JoinsRightIff(s[n - 1..][e + 1..], more);
      StyleFirstPieces(s, e, copy, RightPieces(s[n - 1..][e + 1..], more));
    } else {
      HashFirst(n, copy, []);
      NoneHit();
      assert HashPieces(n, copy) + [] == HashPieces(n, copy);
    }
  }

  // ----- Trimming is exact

  /** For any 7-bit text, what trimming on the left writes reads as the pieces written, which
      say the first characters, exactly when in those columns of the text no # on its own is,
      but for characters that are not printed, next to another, a [ or a style. */
  lemma TrimLeftIff(s: string, left: nat)
    ensures Tokens(TrimLeft(s, left)) == Scan(Mean(LeftPieces(s, left)), true) <==> !JoinsLeft(s, left)
    ensures Text(Mean(LeftPieces(s, left))) == Take(Said(s), left)
  {
    LeftWrites(s, left);
    LeftMeans(s, left);
    EmitExact(LeftPieces(s, left));
    JoinsLeftIff(s, left);
  }

  /** And on the right, where the pieces are all but the first characters. */
  lemma TrimRightIff(s: string, skip: nat)
    requires Tokens(s).whole
    ensures Tokens(TrimRight(s, skip)) == Scan(Drop(Tokens(s).tokens, skip), true) <==> !JoinsRight(s, skip)
  {
    RightWrites(s, skip);
    RightMeans(s, skip);
    EmitExact(RightPieces(s, skip));
    JoinsRightIff(s, skip);
  }

  // ----- Printable text has nothing to drop, so nothing meets

  /** What can follow a # on its own. */
  predicate Parts(s: string) {
    s == "" || (Printable(s[0]) && s[0] != '#' && s[0] != '[')
  }

  lemma LonePart(s: string)
    requires AllPrintable(s) && s != "" && s[0] == '#' && !OpensStyle(s) && Hashes(s) == 1
    ensures Parts(s[1..])
  {
  }

  lemma PartsApart(s: string, left: nat)
    requires Parts(s)
    ensures !Hit(LeftPieces(s, left)) && !Hit(RightPieces(s, 0))
  {
  }

  lemma {:induction false} LeftApart(s: string, left: nat)
    requires AllPrintable(s)
    ensures !Meets(LeftPieces(s, left))
    decreases |s|, 1
  {
    hide StyleEnd, HashPieces, Meets, Hit;
    PiecesNone();
    if s != "" && left > 0 {
      if s[0] != '#' {
        LeftApart(s[1..], left - 1);
        PiecesFirst(Letter(s[0]), LeftPieces(s[1..], left - 1));
      } else {
        LeftApartHash(s, left);
      }
    }
  }

  lemma {:induction false} LeftApartHash(s: string, left: nat)
    requires AllPrintable(s) && s != "" && left > 0 && s[0] == '#'
    ensures !Meets(LeftPieces(s, left))
    decreases |s|, 0
  {
    hide StyleEnd, HashText, HashPieces, StylePieces, Emit, Mean, Sound, Meets, Hit, Written, LeftPieces, TrimLeft;
    var n, w := Hashes(s), Min(HashWidth(s), left);
    LeftStep(s, left);
    HashBound(s);
    PiecesNone();
    if !OpensStyle(s) {
      PrintableFrom(s, n);
      LeftApart(s[n..], left - w);
      HashFirst(n, w, LeftPieces(s[n..], left - w));
      if n == 1 {
        LonePart(s);
        PartsApart(s[1..], left - w);
      }
    } else if StyleEnd(s[n - 1..]).At? {
      var e := StyleEnd(s[n - 1..]).i;
      PrintableFrom(s, n - 1);
      PrintableFrom(s[n - 1..], e + 1);
      LeftApart(s[n - 1..][e + 1..], left - w);
      StyleFirstPieces(s, e, w, LeftPieces(s[n - 1..][e + 1..], left - w));
    } else {
      HashFirst(n, w, []);
      assert HashPieces(n, w) + [] == HashPieces(n, w);
    }
  }

  lemma {:induction false} RightApart(s: string, skip: nat)
    requires AllPrintable(s)
    ensures !Meets(RightPieces(s, skip))
    decreases |s|, 1
  {
    hide StyleEnd, HashPieces, Meets, Hit;
    PiecesNone();
    if s != "" {
      if s[0] != '#' {
        RightApart(s[1..], if skip > 0 then skip - 1 else 0);
        PiecesFirst(Letter(s[0]), RightPieces(s[1..], 0));
      } else {
        RightApartHash(s, skip);
      }
    }
  }

  lemma {:induction false} RightApartHash(s: string, skip: nat)
    requires AllPrintable(s) && s != "" && s[0] == '#'
    ensures !Meets(RightPieces(s, skip))
    decreases |s|, 0
  {
    hide StyleEnd, HashText, HashPieces, StylePieces, Emit, Mean, Sound, Meets, Hit, Written, RightPieces, TrimRight;
    var n, w := Hashes(s), HashWidth(s);
    var copy, more := if skip >= w then 0 else w - skip, if skip >= w then skip - w else 0;
    RightStep(s, skip);
    HashBound(s);
    PiecesNone();
    if !OpensStyle(s) {
      PrintableFrom(s, n);
      RightApart(s[n..], more);
      HashFirst(n, copy, RightPieces(s[n..], more));
      if n == 1 {
        LonePart(s);
        PartsApart(s[1..], 0);
      }
    } else if StyleEnd(s[n - 1..]).At? {
      var e := StyleEnd(s[n - 1..]).i;
      PrintableFrom(s, n - 1);
      PrintableFrom(s[n - 1..], e + 1);
      RightApart(s[n - 1..][e + 1..], more);
      StyleFirstPieces(s, e, copy, RightPieces(s[n - 1..][e + 1..], more));
    } else {
      HashFirst(n, copy, []);
      assert HashPieces(n, copy) + [] == HashPieces(n, copy);
    }
  }

  /** Trimming on the left gives the width asked for, counted up to a style that never ends
      if there is one; so it gives what format_width would have it give exactly when every
      style ends, or nothing comes before the one that does not, or nothing was asked for. */
  lemma TrimLeftExact(s: string, limit: nat)
    requires !JoinsLeft(s, limit)
    ensures Said(TrimLeft(s, limit)) == Take(Said(s), limit)
    ensures Width(TrimLeft(s, limit)) == Min(limit, Columns(s))
    ensures Width(TrimLeft(s, limit)) == Min(limit, Width(s)) <==> Tokens(s).whole || limit == 0 || Columns(s) == 0
  {
    TrimLeftIff(s, limit);
  }

  /** Trimming on the right always gives the width asked for, and the last characters. */
  lemma TrimRightExact(s: string, limit: nat)
    requires Width(s) > limit ==> !JoinsRight(s, Width(s) - limit)
    ensures Width(TrimTo(s, limit)) == Min(limit, Width(s))
    ensures Tokens(s).whole ==> Said(TrimTo(s, limit)) == Said(s)[Columns(s) - Min(limit, Columns(s))..]
  {
    if Width(s) > limit {
      TrimRightIff(s, Width(s) - limit);
      TextDrop(Tokens(s).tokens, Width(s) - limit);
    }
  }

  /** So it is for printable text. */
  lemma PrintableExact(s: string, limit: nat)
    requires AllPrintable(s)
    ensures !JoinsLeft(s, limit) && (Width(s) > limit ==> !JoinsRight(s, Width(s) - limit))
    ensures Width(TrimLeft(s, limit)) == Min(limit, Columns(s)) && Width(TrimTo(s, limit)) == Min(limit, Width(s))
  {
    LeftApart(s, limit);
    JoinsLeftIff(s, limit);
    TrimLeftExact(s, limit);
    if Width(s) > limit {
      RightApart(s, Width(s) - limit);
      JoinsRightIff(s, Width(s) - limit);
    }
    TrimRightExact(s, limit);
  }

  /** A character that is not printed between two #s is dropped when trimming, and what was
      two #s becomes one. */
  lemma DroppedBetweenHashes()
    ensures var s := ['#', 1 as char, '#'];
            JoinsLeft(s, 5) && Width(s) == 2 && Width(TrimLeft(s, 5)) == 1
  {
    var s: string, r: string := ['#', 1 as char, '#'], [1 as char, '#'];
    assert s[1..] == r && r[1..] == "#" && "#"[1..] == "";
    assert Hashes(r) == 0 && Hashes("") == 0;
    assert Hashes(s) == 1 + Hashes(s[1..]) && Hashes("#") == 1;
    TokensNone();
    assert Tokens("#") == Then(Chars('#', 1), Tokens(""));
    assert Tokens(r) == Tokens("#");
    assert Tokens(s) == Then(Chars('#', 1), Tokens(r));
    TextChars('#', 1);
    TextChars('#', 2);
    assert Tokens(s).tokens == Chars('#', 2);
    assert LeftPieces("#", 4) == [Lone] + LeftPieces("", 3);
    assert LeftPieces(r, 4) == LeftPieces("#", 4);
    assert LeftPieces(s, 5) == [Lone] + LeftPieces(r, 4);
    PiecesFirst(Lone, LeftPieces(r, 4));
    JoinsLeftIff(s, 5);
    assert TrimLeft("", 3) == "";
    assert TrimLeft("#", 4) == HashText(1, 1) + TrimLeft("", 3);
    assert TrimLeft(r, 4) == TrimLeft("#", 4);
    assert TrimLeft(s, 5) == HashText(1, 1) + TrimLeft(r, 4);
    assert TrimLeft(s, 5) == Repeat('#', 2);
    RunAlone(2);
  }

  const MARK := "#[#{]a}]"
  const JOINED := "#[}" + MARK

  lemma ChanceStyles()
    ensures StyleEnd(MARK) == At(7) && StyleEnd(JOINED) == At(7)
  {
    assert Skip(MARK, "]", 7, 0) == At(7);
    assert Skip(MARK, "]", 6, 1) == Skip(MARK, "]", 7, 0);
    assert Skip(MARK, "]", 5, 1) == Skip(MARK, "]", 6, 1);
    assert Skip(MARK, "]", 4, 1) == Skip(MARK, "]", 5, 1);
    assert Skip(MARK, "]", 2, 0) == Skip(MARK, "]", 4, 1);
    assert Skip(JOINED, "]", 7, 0) == At(7);
    assert Skip(JOINED, "]", 5, -1) == Skip(JOINED, "]", 7, 0);
    assert Skip(JOINED, "]", 4, -1) == Skip(JOINED, "]", 5, -1);
    assert Skip(JOINED, "]", 3, -1) == Skip(JOINED, "]", 4, -1);
    assert Skip(JOINED, "]", 2, 0) == Skip(JOINED, "]", 3, -1);
  }

  lemma OneDropped(c: char, rest: string, left: nat)
    requires !Printable(c)
    ensures Tokens([c] + rest) == Tokens(rest) && LeftPieces([c] + rest, left) == LeftPieces(rest, left)
  {
    assert ([c] + rest)[1..] == rest;
    assert rest == "" ==> LeftPieces(rest, left) == [];
  }

  lemma OneLetter(c: char, rest: string, left: nat)
    requires Printable(c) && c != '#' && left > 0
    ensures LeftPieces([c] + rest, left) == [Letter(c)] + LeftPieces(rest, left - 1)
  {
    assert ([c] + rest)[1..] == rest;
  }

  lemma OneLone(rest: string, left: nat)
    requires rest != "" && rest[0] != '#' && rest[0] != '[' && left > 0
    ensures LeftPieces("#" + rest, left) == [Lone] + LeftPieces(rest, left - 1)
  {
    hide LeftPieces, TrimLeft, StyleEnd;
    assert "#" + rest == Repeat('#', 1) + rest;
    HashesOf(1, rest);
    LeftStep("#" + rest, left);
    assert ("#" + rest)[1..] == rest;
  }

  lemma OneMark(style: string, left: nat)
    requires StartsStyle(style) && left > 0 && |style| >= 3 && StyleEnd(style) == At(|style| - 1)
    ensures LeftPieces(style, left) == [Mark(style)]
  {
    hide TrimLeft, StyleEnd;
    TokensStyle(style);
    LeftStep(style, left);
    assert style[0..] == style && style[..|style|] == style && style[|style|..] == "";
  }

  /** A # of its own, a character that is dropped, a [, a } and a style. */
  lemma ChancePieces(s: string)
    requires s == "#" + ([1 as char] + ("[" + ("}" + MARK)))
    ensures LeftPieces(s, 9) == [Lone] + ([Letter('[')] + ([Letter('}')] + [Mark(MARK)]))
  {
    ChanceStyles();
    hide StyleEnd, LeftPieces;
    OneMark(MARK, 6);
    OneLetter('}', MARK, 7);
    OneLetter('[', "}" + MARK, 8);
    OneDropped(1 as char, "[" + ("}" + MARK), 8);
    OneLone([1 as char] + ("[" + ("}" + MARK)), 9);
  }

  lemma ChanceSays(s: string)
    requires s == "#" + ([1 as char] + ("[" + ("}" + MARK)))
    ensures Said(s) == "#[}" && Width(s) == 3
  {
    ChanceStyles();
    hide StyleEnd, Text, Tokens, LeftPieces;
    var a, b, c := [1 as char] + ("[" + ("}" + MARK)), "[" + ("}" + MARK), "}" + MARK;
    OneHash(a);
    OneDropped(1 as char, b, 0);
    TokensChar('[', c);
    TokensChar('}', MARK);
    TokensStyle(MARK);
    TokensNone();
    TextNone();
    assert MARK[8..] == "";
    SaidThen([Style(MARK[2..7])], "", MARK);
    SaidThen([Char('}')], MARK, c);
    SaidThen([Char('[')], c, b);
    SaidThen(Chars('#', 1), a, s);
    TextOne(Style(MARK[2..7]));
    TextOne(Char('}'));
    TextOne(Char('['));
    TextChars('#', 1);
    assert Repeat('#', 1) + ("[" + ("}" + ("" + ""))) == "#[}";
  }

  lemma ChanceWrites(s: string)
    requires s == "#" + ([1 as char] + ("[" + ("}" + MARK)))
    ensures TrimLeft(s, 9) == JOINED && Meets(LeftPieces(s, 9))
  {
    ChancePieces(s);
    LeftWrites(s, 9);
    var d := [Mark(MARK)];
    var c := [Letter('}')] + d;
    var b := [Letter('[')] + c;
    hide StyleEnd, LeftPieces, TrimLeft;
    PiecesFirst(Lone, b);
    PiecesFirst(Letter('['), c);
    PiecesFirst(Letter('}'), d);
    PiecesFirst(Mark(MARK), []);
    assert d == [Mark(MARK)] + [];
  }

  /** Only in what it reads as does it show: by chance the width may be right though the # has
      met the [, when what was a style ends up as text. */
  lemma WidthByChance(s: string)
    requires s == "#" + ([1 as char] + ("[" + ("}" + MARK)))
    ensures JoinsLeft(s, 9) && Width(TrimLeft(s, 9)) == Width(s) == 3
    ensures Said(TrimLeft(s, 9)) == "a}]" && Said(s) == "#[}"
  {
    hide StyleEnd, Skip, LeftPieces, TrimLeft, Tokens, Text, Meets, JoinsLeft;
    ChanceStyles();
    ChanceWrites(s);
    ChanceSays(s);
    JoinsLeftIff(s, 9);
    TokensStyle(JOINED);
    assert JOINED[8..] == "a}]";
    TokensChar('a', "}]");
    TokensChar('}', "]");
    TokensChar(']', "");
    TokensNone();
    TextNone();
    assert "a" + "}]" == "a}]" && "}" + "]" == "}]" && "]" + "" == "]";
    SaidThen([Char(']')], "", "]");
    SaidThen([Char('}')], "]", "}]");
    SaidThen([Char('a')], "}]", "a}]");
    TextOne(Char('a'));
    TextOne(Char('}'));
    TextOne(Char(']'));
    SaidThen([Style(JOINED[2..7])], "a}]", JOINED);
    TextOne(Style(JOINED[2..7]));
  }

  // ----- The output fits its buffer

  /** Twice the length is room enough. */
  lemma {:induction false} TrimLeftFits(s: string, left: nat)
    ensures |TrimLeft(s, left)| <= 2 * |s|
    decreases |s|, 1
  {
    hide HashText, StyleEnd, HashWidth;
    if s != "" && left > 0 {
      if s[0] != '#' {
        TrimLeftFits(s[1..], if Printable(s[0]) then left - 1 else left);
      } else {
        TrimLeftFitsHash(s, left);
      }
    }
  }

  lemma {:induction false} TrimLeftFitsHash(s: string, left: nat)
    requires s != "" && left > 0 && s[0] == '#'
    ensures |TrimLeft(s, left)| <= 2 * |s|
    decreases |s|, 0
  {
    hide HashText, StyleEnd, HashWidth, TrimLeft, LeftPieces, HashPieces, StylePieces;
    var n, w := Hashes(s), Min(HashWidth(s), left);
    LeftStep(s, left);
    HashTextFits(s, w);
    if !OpensStyle(s) {
      TrimLeftFits(s[n..], left - w);
    } else if StyleEnd(s[n - 1..]).At? {
      TrimLeftFits(s[n - 1..][StyleEnd(s[n - 1..]).i + 1..], left - w);
    }
  }

  lemma HashTextFits(s: string, w: nat)
    requires s != "" && s[0] == '#' && w <= HashWidth(s)
    ensures |HashText(Hashes(s), w)| <= 2 * Hashes(s)
    ensures OpensStyle(s) ==> |HashText(Hashes(s), w)| <= 2 * (Hashes(s) - 1)
  {
  }

  lemma {:induction false} TrimRightFits(s: string, skip: nat)
    ensures |TrimRight(s, skip)| <= 2 * |s|
    decreases |s|, 1
  {
    hide HashText, StyleEnd, HashWidth;
    if s != "" {
      if s[0] != '#' {
        TrimRightFits(s[1..], if Printable(s[0]) && skip > 0 then skip - 1 else skip);
      } else {
        TrimRightFitsHash(s, skip);
      }
    }
  }

  lemma {:induction false} TrimRightFitsHash(s: string, skip: nat)
    requires s != "" && s[0] == '#'
    ensures |TrimRight(s, skip)| <= 2 * |s|
    decreases |s|, 0
  {
    hide HashText, StyleEnd, HashWidth, TrimRight, RightPieces, HashPieces, StylePieces;
    var n, w := Hashes(s), HashWidth(s);
    var more := if skip >= w then skip - w else 0;
    RightStep(s, skip);
    HashTextFits(s, if skip >= w then 0 else w - skip);
    if !OpensStyle(s) {
      TrimRightFits(s[n..], more);
    } else if StyleEnd(s[n - 1..]).At? {
      TrimRightFits(s[n - 1..][StyleEnd(s[n - 1..]).i + 1..], more);
    }
  }

  // ----- Quoting

  function Letters(s: string): (r: seq<Token>)
    ensures |r| == |s| && forall i :: 0 <= i < |s| ==> r[i] == Char(s[i])
  {
    seq(|s|, i requires 0 <= i < |s| => Char(s[i]))
  }

  lemma {:induction false} QuoteRun(n: nat, rest: string)
    ensures Quote(Repeat('#', n) + rest) == Repeat('#', 2 * n) + Quote(rest)
  {
    var s := Repeat('#', n) + rest;
    if n > 0 {
      QuoteRun(n - 1, rest);
      assert s[1..] == Repeat('#', n - 1) + rest;
      assert "##" + Repeat('#', 2 * (n - 1)) == Repeat('#', 2 * n);
    } else {
      assert s == rest && Repeat('#', 0) + Quote(rest) == Quote(rest);
    }
  }

  /** The characters that are printed. */
  function Visible(s: string): string {
    if s == "" then "" else (if Printable(s[0]) then [s[0]] else "") + Visible(s[1..])
  }

  lemma {:induction false} VisibleRun(n: nat, rest: string)
    ensures Visible(Repeat('#', n) + rest) == Repeat('#', n) + Visible(rest)
  {
    if n > 0 {
      VisibleRun(n - 1, rest);
      assert (Repeat('#', n) + rest)[1..] == Repeat('#', n - 1) + rest;
      assert "#" + Repeat('#', n - 1) == Repeat('#', n);
    } else {
      assert Repeat('#', 0) + rest == rest && Repeat('#', 0) + Visible(rest) == Visible(rest);
    }
  }

  lemma {:induction false} VisibleAll(s: string)
    requires AllPrintable(s)
    ensures Visible(s) == s
  {
    if s != "" {
      VisibleAll(s[1..]);
      assert s == [s[0]] + s[1..];
    }
  }

  /** Quoted text is nothing but its own characters: it has no styles, and draws as it is. */
  lemma {:induction false} QuoteTokens(s: string)
    ensures Tokens(Quote(s)) == Scan(Letters(Visible(s)), true)
    decreases |s|
  {
    hide Tokens;
    if s == "" {
      TokensNone();
    } else if s[0] != '#' {
      QuoteTokens(s[1..]);
      assert Quote(s) == [s[0]] + Quote(s[1..]);
      assert Quote(s)[1..] == Quote(s[1..]);
      TokensSkip(Quote(s));
      assert [Char(s[0])] + Letters(Visible(s[1..])) == Letters([s[0]] + Visible(s[1..]));
    } else {
      var n := Hashes(s);
      var rest := s[n..];
      assert s == Repeat('#', n) + rest;
      QuoteRun(n, rest);
      VisibleRun(n, rest);
      QuoteTokens(rest);
      QuoteStarts(rest);
      EvenRun(n, Quote(rest));
      assert Chars('#', n) + Letters(Visible(rest)) == Letters(Repeat('#', n) + Visible(rest));
    }
  }

  lemma QuoteStarts(rest: string)
    requires rest == "" || rest[0] != '#'
    ensures Clear(Quote(rest))
  {
  }

  lemma {:induction false} LettersText(s: string)
    ensures Text(Letters(s)) == s
  {
    if s != "" {
      LettersText(s[1..]);
      assert Letters(s)[1..] == Letters(s[1..]);
      assert s == [s[0]] + s[1..];
    }
  }

  /** The round trip: quoted text says what is printed of the text, which is all of it when
      all of it is printable, and is as wide as that. */
  lemma QuoteSays(s: string)
    ensures Said(Quote(s)) == Visible(s) && Width(Quote(s)) == |Visible(s)|
    ensures AllPrintable(s) ==> Said(Quote(s)) == s
  {
    QuoteTokens(s);
    LettersText(Visible(s));
    if AllPrintable(s) {
      VisibleAll(s);
    }
  }

  /** The characters that take a column: those from the space up to the tilde. */
  lemma OneCharWidth(c: char)
    requires c != '#'
    ensures Width([c]) == if 0x20 <= c as int <= 0x7e then 1 else 0
  {
    assert [c][1..] == "";
    TokensNone();
    TextNone();
    TextOne(Char(c));
    TokensSkip([c]);
  }

  // ----- Drawing in sections

  /** LEFT, CENTRE, RIGHT, ABSOLUTE_CENTRE, LIST, LIST_LEFT, LIST_RIGHT, AFTER */
  const SECTIONS := 8

  type Section = n: nat | n < SECTIONS

  /** What is drawn in each section, the styles seen and the section being drawn. */
  datatype Drawn = Drawn(texts: seq<string>, styles: seq<string>, current: Section)

  const BLANK := Drawn(["", "", "", "", "", "", "", ""], [], 0)

  /** The section a style selects may depend on all that came before. */
  type Chooser = (Drawn, string) -> Section

  function Put(d: Drawn, text: string): (r: Drawn)
    requires |d.texts| == SECTIONS
    ensures |r.texts| == SECTIONS
  {
    d.(texts := d.texts[d.current := d.texts[d.current] + text])
  }

  function Choose(d: Drawn, style: string, chooser: Chooser): Drawn {
    d.(styles := d.styles + [style], current := chooser(d, style))
  }

  /** Drawing token after token. */
  function Draw(tokens: seq<Token>, d: Drawn, chooser: Chooser): (r: Drawn)
    requires |d.texts| == SECTIONS
    ensures |r.texts| == SECTIONS
  {
    if tokens == [] then d
    else
      match tokens[0]
      case Char(c) => Draw(tokens[1..], Put(d, [c]), chooser)
      case Style(text) => Draw(tokens[1..], Choose(d, text, chooser), chooser)
  }

  function Total(texts: seq<string>): nat {
    if texts == [] then 0 else |texts[0]| + Total(texts[1..])
  }

  lemma {:induction false} TotalPut(texts: seq<string>, i: nat, text: string)
    requires i < |texts|
    ensures Total(texts[i := texts[i] + text]) == Total(texts) + |text|
  {
    if i > 0 {
      TotalPut(texts[1..], i - 1, text);
      assert texts[i := texts[i] + text][1..] == texts[1..][i - 1 := texts[i] + text];
    } else {
      assert texts[i := texts[i] + text][1..] == texts[1..];
    }
  }

  /** The columns drawn in all the sections are the characters of the text, wherever the
      styles send them. */
  lemma {:induction false} DrawTotal(tokens: seq<Token>, d: Drawn, chooser: Chooser)
    requires |d.texts| == SECTIONS
    ensures Total(Draw(tokens, d, chooser).texts) == Total(d.texts) + |Text(tokens)|
    decreases |tokens|
  {
    if tokens != [] {
      match tokens[0]
      case Char(c) =>
        TotalPut(d.texts, d.current, [c]);
        DrawTotal(tokens[1..], Put(d, [c]), chooser);
      case Style(text) => DrawTotal(tokens[1..], Choose(d, text, chooser), chooser);
    }
  }

  /** What format_draw has to draw of a text: nothing at all when a style never ends. */
  function DrawnOf(s: string, chooser: Chooser): (r: Drawn)
    ensures |r.texts| == SECTIONS
  {
    if Tokens(s).whole then Draw(Tokens(s).tokens, BLANK, chooser) else BLANK
  }

  /** Measuring and drawing agree, for any text. */
  lemma WidthIsDrawn(s: string, chooser: Chooser)
    ensures Total(DrawnOf(s, chooser).texts) == Width(s)
  {
    DrawTotal(Tokens(s).tokens, BLANK, chooser);
    BlankTotal();
  }

  lemma BlankTotal()
    ensures Total(["", "", "", "", "", "", "", ""]) == 0
  {
    assert Total(["", "", "", ""]) == 0;
    assert Total(["", "", "", "", "", "", "", ""]) == Total(["", "", "", ""]);
  }

  lemma {:induction false} DrawLetters(s: string, d: Drawn, chooser: Chooser)
    requires |d.texts| == SECTIONS
    ensures Draw(Letters(s), d, chooser) == Put(d, s)
    decreases |s|
  {
    if s == "" {
      assert d.texts[d.current] + "" == d.texts[d.current];
      assert d.texts[d.current := d.texts[d.current]] == d.texts;
    } else {
      assert Letters(s)[1..] == Letters(s[1..]);
      DrawLetters(s[1..], Put(d, [s[0]]), chooser);
      assert d.texts[d.current] + [s[0]] + s[1..] == d.texts[d.current] + s;
      assert Put(Put(d, [s[0]]), s[1..]).texts == Put(d, s).texts;
    }
  }

  /** Quoted text draws exactly the characters quoted that are printed, all in the left section. */
  lemma QuotedDraws(s: string, chooser: Chooser)
    ensures DrawnOf(Quote(s), chooser).texts == [Visible(s), "", "", "", "", "", "", ""]
    ensures AllPrintable(s) ==> Visible(s) == s
  {
    QuoteTokens(s);
    DrawLetters(Visible(s), BLANK, chooser);
    assert "" + Visible(s) == Visible(s);
    if AllPrintable(s) {
      VisibleAll(s);
    }
  }

  lemma {:induction false} DrawConcat(a: seq<Token>, b: seq<Token>, d: Drawn, chooser: Chooser)
    requires |d.texts| == SECTIONS
    ensures Draw(a + b, d, chooser) == Draw(b, Draw(a, d, chooser), chooser)
    decreases |a|
  {
    if a == [] {
      assert a + b == b;
    } else {
      assert (a + b)[1..] == a[1..] + b;
      match a[0]
      case Char(c) => DrawConcat(a[1..], b, Put(d, [c]), chooser);
      case Style(text) => DrawConcat(a[1..], b, Choose(d, text, chooser), chooser);
    }
  }
}
