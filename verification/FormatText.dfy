/** Text with #[...] styles: what its characters and styles are, and what measuring,
    trimming and quoting do to them (format-draw.c, format.c). Strings are of 7-bit
    characters. */
module FormatText {

  predicate Printable(c: char) {
    ' ' <= c <= '~'
  }

  predicate AllPrintable(s: string) {
    forall i :: 0 <= i < |s| ==> Printable(s[i])
  }

  /** The number of #s at the start. */
  function Hashes(s: string): (n: nat)
    ensures n <= |s| && forall i :: 0 <= i < n ==> s[i] == '#'
    ensures n < |s| ==> s[n] != '#'
  {
    if s != "" && s[0] == '#' then 1 + Hashes(s[1..]) else 0
  }

  /** A position, or none: NULL. */
  datatype Found = At(i: nat) | Missing

  /** format_skip1 from position `i`, without the time limit: the first of the characters
      `end` outside #{...}; after # one of ,#{}: is skipped. */
  function Skip(s: string, end: string, i: nat, brackets: int): (r: Found)
    requires i <= |s|
    ensures r.At? ==> i <= r.i < |s| && s[r.i] in end
    decreases |s| - i
  {
    if i == |s| then Missing
    else
      var open := if s[i] == '#' && i + 1 < |s| && s[i + 1] == '{' then brackets + 1 else brackets;
      if s[i] == '#' && i + 1 < |s| && s[i + 1] in ",#{}:" then Skip(s, end, i + 2, open)
      else
        var now := if s[i] == '}' then open - 1 else open;
        if s[i] in end && now == 0 then At(i) else Skip(s, end, i + 1, now)
  }

  // ----- Text with escapes and nested #{...}

  /** A piece of such text: a character, an escaped one, or a #{...} with pieces in it. */
  datatype Bit = Lit(c: char) | Esc(c: char) | Group(inside: seq<Bit>)

  function Shown(b: Bit): string {
    match b
    case Lit(c) => [c]
    case Esc(c) => ['#', c]
    case Group(inside) => "#{" + ShownAll(inside) + "}"
  }

  function ShownAll(bits: seq<Bit>): string {
    if bits == [] then "" else Shown(bits[0]) + ShownAll(bits[1..])
  }

  /** Outside #{...} none of the characters looked for, unless escaped; and no # or } that is
      not part of an escape or of a #{...}. */
  predicate Nested(b: Bit, end: string, outside: bool) {
    match b
    case Lit(c) => c != '#' && c != '}' && (outside ==> c !in end)
    case Esc(c) => c in ",#}:"
    case Group(inside) => AllNested(inside, end, false)
  }

  predicate AllNested(bits: seq<Bit>, end: string, outside: bool) {
    bits == [] || (Nested(bits[0], end, outside) && AllNested(bits[1..], end, outside))
  }

  lemma SkipOpen(s: string, end: string, i: nat, depth: int)
    requires i + 1 < |s| && s[i] == '#' && s[i + 1] == '{'
    ensures Skip(s, end, i, depth) == Skip(s, end, i + 2, depth + 1)
  {
  }

  lemma SkipClose(s: string, end: string, i: nat, depth: int)
    requires i < |s| && s[i] == '}' && '}' !in end
    ensures Skip(s, end, i, depth) == Skip(s, end, i + 1, depth - 1)
  {
  }

  lemma CutInThree(s: string, i: nat, a: string, b: string, c: string)
    requires i + |a + b + c| <= |s| && s[i..i + |a + b + c|] == a + b + c
    ensures s[i..i + |a|] == a && s[i + |a|..i + |a| + |b|] == b && s[i + |a| + |b|..i + |a + b + c|] == c
  {
    var t := a + b + c;
    assert t[0..|a|] == a && t[|a|..|a| + |b|] == b && t[|a| + |b|..|t|] == c;
    SliceOf(s, i, |t|, 0, |a|);
    SliceOf(s, i, |t|, |a|, |a| + |b|);
    SliceOf(s, i, |t|, |a| + |b|, |t|);
    assert s[i..i + |t|] == t;
    assert s[i..i + |a|] == t[0..|a|];
    assert s[i + |a|..i + |a| + |b|] == t[|a|..|a| + |b|];
    assert s[i + |a| + |b|..i + |t|] == t[|a| + |b|..|t|];
  }

  lemma SliceOf(s: string, i: nat, n: nat, from: nat, to: nat)
    requires i + n <= |s| && from <= to <= n
    ensures s[i..i + n][from..to] == s[i + from..i + to]
  {
    var t := s[i..i + n];
    forall k | 0 <= k < to - from
      ensures t[from..to][k] == s[i + from..i + to][k]
    {
      assert t[from + k] == s[i + from + k];
    }
  }

  lemma SkipPlain(s: string, end: string, i: nat, depth: nat)
    requires i < |s| && s[i] != '#' && s[i] != '}' && (depth == 0 ==> s[i] !in end)
    ensures Skip(s, end, i, depth) == Skip(s, end, i + 1, depth)
  {
  }

  lemma SkipEscape(s: string, end: string, i: nat, depth: nat)
    requires i + 1 < |s| && s[i] == '#' && s[i + 1] in ",#}:"
    ensures Skip(s, end, i, depth) == Skip(s, end, i + 2, depth)
  {
  }

  /** The piece at position `i` is passed over. */
  lemma {:induction false} SkipBit(s: string, end: string, i: nat, b: Bit, depth: nat)
    requires i + |Shown(b)| <= |s| && s[i..i + |Shown(b)|] == Shown(b)
    requires Nested(b, end, depth == 0) && '}' !in end
    ensures Skip(s, end, i, depth) == Skip(s, end, i + |Shown(b)|, depth)
    decreases b, 0
  {
    hide Skip;
    match b
    case Lit(c) =>
      assert s[i] == s[i..i + 1][0];
      SkipPlain(s, end, i, depth);
    case Esc(c) =>
      assert s[i] == s[i..i + 2][0] && s[i + 1] == s[i..i + 2][1];
      SkipEscape(s, end, i, depth);
    case Group(inside) =>
      hide ShownAll;
      var m := |ShownAll(inside)|;
      CutInThree(s, i, "#{", ShownAll(inside), "}");
      assert s[i] == s[i..i + 2][0] && s[i + 1] == s[i..i + 2][1] && s[i + 2 + m] == s[i + 2 + m..i + 3 + m][0];
      SkipOpen(s, end, i, depth);
      SkipBits(s, end, i + 2, inside, depth + 1);
      SkipClose(s, end, i + 2 + m, depth + 1);
  }

  lemma {:induction false} SkipBits(s: string, end: string, i: nat, bits: seq<Bit>, depth: nat)
    requires i + |ShownAll(bits)| <= |s| && s[i..i + |ShownAll(bits)|] == ShownAll(bits)
    requires AllNested(bits, end, depth == 0) && '}' !in end
    ensures Skip(s, end, i, depth) == Skip(s, end, i + |ShownAll(bits)|, depth)
    decreases bits, 1
  {
    if bits != [] {
      hide Skip, Shown;
      var n := |Shown(bits[0])|;
      CutInThree(s, i, "", Shown(bits[0]), ShownAll(bits[1..]));
      SkipBit(s, end, i, bits[0], depth);
      SkipBits(s, end, i + n, bits[1..], depth);
    }
  }

  /** The end of such text is found right after it, however its #{...} are nested and whatever
      is escaped in it or comes after it. */
  lemma SkipNested(bits: seq<Bit>, end: string, c: char, rest: string)
    requires AllNested(bits, end, true) && c in end && c != '#' && '}' !in end
    ensures Skip(ShownAll(bits) + [c] + rest, end, 0, 0) == At(|ShownAll(bits)|)
  {
    var s, n := ShownAll(bits) + [c] + rest, |ShownAll(bits)|;
    assert s[..n] == ShownAll(bits) && s[n] == c;
    SkipBits(s, end, 0, bits, 0);
  }

  /** Where the style that starts s ends: the ] after #[, from the start of s. */
  function StyleEnd(s: string): (r: Found)
    requires |s| >= 2
    ensures r.At? ==> 2 <= r.i < |s| && s[r.i] == ']'
  {
    Skip(s, "]", 2, 0)
  }

  // ----- What a text is made of

  datatype Token = Char(c: char) | Style(text: string)

  /** The characters and styles in order, up to a style that never ends. */
  datatype Scan = Scan(tokens: seq<Token>, whole: bool)

  function Repeat(c: char, n: nat): (r: string)
    ensures |r| == n && forall i :: 0 <= i < n ==> r[i] == c
  {
    seq(n, _ => c)
  }

  function Chars(c: char, n: nat): (r: seq<Token>)
    ensures |r| == n && forall i :: 0 <= i < n ==> r[i] == Char(c)
  {
    seq(n, _ => Char(c))
  }

  function Then(tokens: seq<Token>, rest: Scan): Scan {
    Scan(tokens + rest.tokens, rest.whole)
  }

  /** Two #s stand for one, an odd one left over for one too unless it starts a style. */
  function Tokens(s: string): Scan
    decreases |s|
  {
    if s == "" then Scan([], true)
    else if s[0] != '#' then
      if Printable(s[0]) then Then([Char(s[0])], Tokens(s[1..])) else Tokens(s[1..])
    else
      var n := Hashes(s);
      if n == |s| || s[n] != '[' then Then(Chars('#', (n + 1) / 2), Tokens(s[n..]))
      else if n % 2 == 0 then Then(Chars('#', n / 2), Tokens(s[n..]))
      else
        var style := s[n - 1..];
        match StyleEnd(style)
        case Missing => Scan(Chars('#', n / 2), false)
        case At(e) => Then(Chars('#', n / 2) + [Style(style[2..e])], Tokens(style[e + 1..]))
  }

  /** The characters alone. */
  function Text(tokens: seq<Token>): string {
    if tokens == [] then "" else (if tokens[0].Char? then [tokens[0].c] else "") + Text(tokens[1..])
  }

  /** The columns a text takes up to a style that never ends. */
  function Columns(s: string): nat {
    |Text(Tokens(s).tokens)|
  }

  /** format_width: nothing when a style never ends. */
  function Width(s: string): nat {
    if Tokens(s).whole then Columns(s) else 0
  }

  /** The tokens left when the first `n` characters are dropped and all styles kept. */
  function Drop(tokens: seq<Token>, n: nat): seq<Token> {
    if tokens == [] then []
    else if tokens[0].Char? && n > 0 then Drop(tokens[1..], n - 1)
    else [tokens[0]] + Drop(tokens[1..], n)
  }

  // ----- Trimming

  function Min(a: nat, b: nat): nat {
    if a <= b then a else b
  }

  /** format_leading_hashes: the columns of the #s at the start, those of a style left out. */
  function HashWidth(s: string): nat {
    var n := Hashes(s);
    if n < |s| && s[n] == '[' then n / 2 else (n + 1) / 2
  }

  /** Whether the #s at the start end in a style. */
  predicate OpensStyle(s: string) {
    var n := Hashes(s);
    n < |s| && s[n] == '[' && n % 2 == 1
  }

  /** The #s written for `w` of the columns of a run of `n`. */
  function HashText(n: nat, w: nat): string {
    if w == 0 then "" else if n == 1 then "#" else Repeat('#', 2 * w)
  }

  /** format_trim_left with `left` columns to go. */
  function TrimLeft(s: string, left: nat): string
    decreases |s|
  {
    if s == "" || left == 0 then ""
    else if s[0] != '#' then
      if Printable(s[0]) then [s[0]] + TrimLeft(s[1..], left - 1) else TrimLeft(s[1..], left)
    else
      var n := Hashes(s);
      var w := Min(HashWidth(s), left);
      if OpensStyle(s) then
        var style := s[n - 1..];
        match StyleEnd(style)
        case Missing => HashText(n, w)
        case At(e) => HashText(n, w) + style[..e + 1] + TrimLeft(style[e + 1..], left - w)
      else HashText(n, w) + TrimLeft(s[n..], left - w)
  }

  /** The copying loop of format_trim_right with `skip` columns still to be left out. */
  function TrimRight(s: string, skip: nat): string
    decreases |s|
  {
    if s == "" then ""
    else if s[0] != '#' then
      if !Printable(s[0]) then TrimRight(s[1..], skip)
      else if skip == 0 then [s[0]] + TrimRight(s[1..], 0)
      else TrimRight(s[1..], skip - 1)
    else
      var n := Hashes(s);
      var w := HashWidth(s);
      var copy := if skip >= w then 0 else w - skip;
      var rest := if skip >= w then skip - w else 0;
      if OpensStyle(s) then
        var style := s[n - 1..];
        match StyleEnd(style)
        case Missing => HashText(n, copy)
        case At(e) => HashText(n, copy) + style[..e + 1] + TrimRight(style[e + 1..], rest)
      else HashText(n, copy) + TrimRight(s[n..], rest)
  }

  /** format_quote_style */
  function Quote(s: string): string {
    if s == "" then "" else (if s[0] == '#' then "##" else [s[0]]) + Quote(s[1..])
  }

  // ----- Scanning what was put together

  lemma {:induction false} HashesOf(n: nat, rest: string)
    requires rest == "" || rest[0] != '#'
    ensures Hashes(Repeat('#', n) + rest) == n
  {
    if n > 0 {
      HashesOf(n - 1, rest);
      assert (Repeat('#', n) + rest)[1..] == Repeat('#', n - 1) + rest;
    } else {
      assert Repeat('#', 0) + rest == rest;
    }
  }

  /** The end of a style does not depend on what follows it. */
  lemma {:induction false} SkipPrefix(s: string, t: string, i: nat, brackets: int, k: nat)
    requires i <= |s| && i <= |t| && k <= |s| && k <= |t| && s[..k] == t[..k]
    requires Skip(s, "]", i, brackets).At? && Skip(s, "]", i, brackets).i < k
    ensures Skip(t, "]", i, brackets) == Skip(s, "]", i, brackets)
    decreases |s| - i
  {
    assert i < k;
    assert s[i] == s[..k][i] == t[..k][i] == t[i];
    if i + 1 < k {
      assert s[i + 1] == s[..k][i + 1] == t[..k][i + 1] == t[i + 1];
      var open := if s[i] == '#' && s[i + 1] == '{' then brackets + 1 else brackets;
      if s[i] == '#' && s[i + 1] in ",#{}:" {
        SkipPrefix(s, t, i + 2, open, k);
      } else {
        var now := if s[i] == '}' then open - 1 else open;
        if !(s[i] in "]" && now == 0) {
          SkipPrefix(s, t, i + 1, now, k);
        }
      }
    }
  }

  predicate StartsStyle(s: string) {
    |s| >= 2 && s[0] == '#' && s[1] == '['
  }

  /** What may follow an even number of #s without changing what they stand for. */
  predicate Clear(rest: string) {
    rest == "" || rest[0] != '#' || StartsStyle(rest)
  }

  /** A scan step, with the #s at the start counted. */
  lemma TokensHashes(s: string, n: nat)
    requires s != "" && s[0] == '#' && Hashes(s) == n
    ensures n > 0
    ensures n == |s| || s[n] != '[' ==> Tokens(s) == Then(Chars('#', (n + 1) / 2), Tokens(s[n..]))
    ensures n < |s| && s[n] == '[' && n % 2 == 0 ==> Tokens(s) == Then(Chars('#', n / 2), Tokens(s[n..]))
    ensures n < |s| && s[n] == '[' && n % 2 == 1 ==>
              var style := s[n - 1..];
              Tokens(s) == match StyleEnd(style)
                           case Missing => Scan(Chars('#', n / 2), false)
                           case At(e) => Then(Chars('#', n / 2) + [Style(style[2..e])], Tokens(style[e + 1..]))
  {
  }

  lemma NoHashes(rest: Scan)
    ensures Then(Chars('#', 0), rest) == rest
  {
    assert Chars('#', 0) == [];
    assert [] + rest.tokens == rest.tokens;
  }

  lemma TokensStyle(s: string)
    requires StartsStyle(s)
    ensures Hashes(s) == 1
    ensures Tokens(s) == match StyleEnd(s)
                         case Missing => Scan([], false)
                         case At(e) => Then([Style(s[2..e])], Tokens(s[e + 1..]))
  {
    hide Tokens;
    HashesOf(1, s[1..]);
    assert s == Repeat('#', 1) + s[1..];
    TokensHashes(s, 1);
    assert s[0..] == s;
    assert Chars('#', 0) == [];
    match StyleEnd(s)
    case Missing =>
    case At(e) => assert [] + [Style(s[2..e])] == [Style(s[2..e])];
  }

  lemma EvenRunStyle(w: nat, rest: string)
    requires w > 0 && StartsStyle(rest)
    ensures Tokens(Repeat('#', 2 * w) + rest) == Then(Chars('#', w), Tokens(rest))
  {
    hide Tokens, StyleEnd;
    var s := Repeat('#', 2 * w) + rest;
    assert s == Repeat('#', 2 * w + 1) + rest[1..];
    HashesOf(2 * w + 1, rest[1..]);
    TokensHashes(s, 2 * w + 1);
    TokensStyle(rest);
    assert s[2 * w..] == rest && s[2 * w + 1] == '[';
    assert (2 * w + 1) / 2 == w;
    match StyleEnd(rest)
    case Missing => assert Chars('#', w) + [] == Chars('#', w);
    case At(e) => ThenThen(Chars('#', w), [Style(rest[2..e])], Tokens(rest[e + 1..]));
  }

  lemma ThenThen(a: seq<Token>, b: seq<Token>, rest: Scan)
    ensures Then(a + b, rest) == Then(a, Then(b, rest))
  {
    assert a + b + rest.tokens == a + (b + rest.tokens);
  }

  /** Twice as many #s as wanted. */
  lemma EvenRun(w: nat, rest: string)
    requires Clear(rest)
    ensures Tokens(Repeat('#', 2 * w) + rest) == Then(Chars('#', w), Tokens(rest))
  {
    hide Tokens, StyleEnd;
    var s := Repeat('#', 2 * w) + rest;
    if w == 0 {
      assert s == rest;
      NoHashes(Tokens(rest));
    } else if rest == "" || rest[0] != '#' {
      HashesOf(2 * w, rest);
      TokensHashes(s, 2 * w);
      assert s[2 * w..] == rest;
      assert rest != "" ==> s[2 * w] == rest[0];
    } else {
      EvenRunStyle(w, rest);
    }
  }

  lemma OneHash(rest: string)
    requires rest == "" || (rest[0] != '#' && rest[0] != '[')
    ensures Tokens("#" + rest) == Then(Chars('#', 1), Tokens(rest))
  {
    hide Tokens;
    assert "#" + rest == Repeat('#', 1) + rest;
    HashesOf(1, rest);
    TokensHashes("#" + rest, 1);
    assert ("#" + rest)[1..] == rest;
    assert rest != "" ==> ("#" + rest)[1] == rest[0];
  }

  /** A style that was copied, whatever follows it now. */
  lemma StyleFirst(style: string, t: string)
    requires StartsStyle(style) && StyleEnd(style).At?
    ensures var e := StyleEnd(style).i;
            var s := style[..e + 1] + t;
            StartsStyle(s) && StyleEnd(s) == At(e) && Tokens(s) == Then([Style(style[2..e])], Tokens(t))
  {
    hide Tokens, Skip;
    var e := StyleEnd(style).i;
    Slices(style, e, t);
    SkipPrefix(style, style[..e + 1] + t, 2, 0, e + 1);
    TokensStyle(style[..e + 1] + t);
  }

  lemma Slices(style: string, e: nat, t: string)
    requires 2 <= e < |style|
    ensures var s := style[..e + 1] + t; s[..e + 1] == style[..e + 1] && s[2..e] == style[2..e] && s[e + 1..] == t
    ensures (style[..e + 1] + t)[0] == style[0] && (style[..e + 1] + t)[1] == style[1]
  {
  }

  lemma TokensChar(c: char, rest: string)
    requires c != '#' && Printable(c)
    ensures Tokens([c] + rest) == Then([Char(c)], Tokens(rest))
  {
    assert ([c] + rest)[1..] == rest;
  }

  lemma PrintableFrom(s: string, k: nat)
    requires AllPrintable(s) && k <= |s|
    ensures AllPrintable(s[k..])
  {
  }

  // ----- Dropping characters

  lemma {:induction false} DropNone(tokens: seq<Token>)
    ensures Drop(tokens, 0) == tokens
  {
    if tokens != [] {
      DropNone(tokens[1..]);
      assert tokens == [tokens[0]] + tokens[1..];
    }
  }

  lemma {:induction false} DropChars(c: char, w: nat, rest: seq<Token>, k: nat)
    ensures Drop(Chars(c, w) + rest, k)
            == Chars(c, if k >= w then 0 else w - k) + Drop(rest, if k >= w then k - w else 0)
  {
    if w == 0 {
      assert Chars(c, 0) + rest == rest;
      assert [] + Drop(rest, k) == Drop(rest, k);
    } else if k == 0 {
      DropNone(Chars(c, w) + rest);
      DropNone(rest);
    } else {
      assert (Chars(c, w) + rest)[1..] == Chars(c, w - 1) + rest;
      DropChars(c, w - 1, rest, k - 1);
    }
  }

  lemma {:induction false} TextDrop(tokens: seq<Token>, k: nat)
    ensures |Text(tokens)| >= k ==> Text(Drop(tokens, k)) == Text(tokens)[k..]
    ensures |Text(tokens)| < k ==> Text(Drop(tokens, k)) == ""
  {
    if tokens != [] {
      if tokens[0].Char? && k > 0 {
        TextDrop(tokens[1..], k - 1);
        assert Text(tokens) == [tokens[0].c] + Text(tokens[1..]);
      } else {
        TextDrop(tokens[1..], k);
        DropNone(tokens[1..]);
        var d := [tokens[0]] + Drop(tokens[1..], k);
        assert d[1..] == Drop(tokens[1..], k);
      }
    }
  }

  lemma TextCons(t: Token, rest: seq<Token>)
    ensures Text([t] + rest) == (if t.Char? then [t.c] else "") + Text(rest)
  {
    assert ([t] + rest)[1..] == rest;
  }

  lemma FirstOf<T>(a: seq<T>, b: seq<T>)
    requires a != []
    ensures a == [a[0]] + a[1..] && a + b == [a[0]] + (a[1..] + b)
  {
  }

  lemma Joined(a: string, b: string, c: string)
    ensures a + (b + c) == a + b + c
  {
  }

  lemma {:induction false} TextConcat(a: seq<Token>, b: seq<Token>)
    ensures Text(a + b) == Text(a) + Text(b)
  {
    if a == [] {
      assert a + b == b;
    } else {
      TextConcat(a[1..], b);
      TextCons(a[0], a[1..]);
      TextCons(a[0], a[1..] + b);
      hide Text;
      FirstOf(a, b);
      Joined(if a[0].Char? then [a[0].c] else "", Text(a[1..]), Text(b));
    }
  }

  lemma {:induction false} TextChars(c: char, n: nat)
    ensures Text(Chars(c, n)) == Repeat(c, n)
  {
    if n > 0 {
      TextChars(c, n - 1);
      assert Chars(c, n)[1..] == Chars(c, n - 1);
      assert Repeat(c, n) == [c] + Repeat(c, n - 1);
    } else {
      assert Repeat(c, 0) == "";
    }
  }

  lemma TokensNone()
    ensures Tokens("") == Scan([], true)
  {
  }

  lemma IsStyle(s: string)
    requires OpensStyle(s)
    ensures StartsStyle(s[Hashes(s) - 1..])
  {
  }

  function Take(t: string, k: nat): string {
    t[..Min(k, |t|)]
  }

  lemma TakeConcat(a: string, b: string, k: nat)
    ensures Take(a + b, k) == Take(a, k) + Take(b, if k >= |a| then k - |a| else 0)
  {
  }

  /** What a text says. */
  function Said(s: string): string {
    Text(Tokens(s).tokens)
  }

  lemma SaidThen(tokens: seq<Token>, rest: string, s: string)
    requires Tokens(s) == Then(tokens, Tokens(rest))
    ensures Said(s) == Text(tokens) + Said(rest)
  {
    TextConcat(tokens, Tokens(rest).tokens);
  }

  lemma TextOne(t: Token)
    ensures Text([t]) == if t.Char? then [t.c] else ""
  {
    assert [t][1..] == [];
  }

  lemma TextNone()
    ensures Text([]) == ""
  {
  }

  lemma TakeHashes(w: nat, rest: string, left: nat)
    ensures Take(Repeat('#', w) + rest, left)
            == Repeat('#', Min(w, left)) + Take(rest, left - Min(w, left))
  {
    TakeConcat(Repeat('#', w), rest, left);
    assert Take(Repeat('#', w), left) == Repeat('#', Min(w, left));
  }
}
