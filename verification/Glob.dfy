/** Glob patterns: the compiled regular expression, what it accepts, and a matcher that works segment by segment. */
module Glob {
  import opened Collections

  // ------------------------------------------------------------ regular expressions

  datatype Regex =
    | Empty
    | Literal(c: char)
    | NotSlash
    | NotNewline
    | Then(first: Regex, second: Regex)
    | Star(body: Regex)
    | Optional(body: Regex)

  /** Case-sensitive comparison. */
  function Same(): char -> char { (c: char) => c }

  /** The slash is told apart from every other character, as in case folding. */
  ghost predicate SlashAlone(fold: char -> char) { forall c :: fold(c) == fold('/') ==> c == '/' }

  /** The strings a regular expression matches in full, characters compared after `fold`. */
  ghost predicate InLanguage(fold: char -> char, r: Regex, s: string)
    decreases |s|, r
  {
    match r
    case Empty => s == []
    case Literal(c) => |s| == 1 && fold(s[0]) == fold(c)
    case NotSlash => |s| == 1 && fold(s[0]) != fold('/')
    case NotNewline => |s| == 1 && s[0] != '\n'
    case Then(a, b) => exists k :: 0 <= k <= |s| && InLanguage(fold, a, s[..k]) && InLanguage(fold, b, s[k..])
    case Star(b) => s == [] || exists k :: 0 < k <= |s| && InLanguage(fold, b, s[..k]) && InLanguage(fold, r, s[k..])
    case Optional(b) => s == [] || InLanguage(fold, b, s)
  }

  /** `^...$` with `match`: the whole string, or all of it before one final line break. */
  ghost predicate Accepts(fold: char -> char, r: Regex, s: string) {
    InLanguage(fold, r, s) || (s != [] && s[|s| - 1] == '\n' && InLanguage(fold, r, s[..|s| - 1]))
  }

  // --------------------------------------------------------------------- tokens

  datatype Token = OptionalDirs | Anything | Within | One | Exactly(c: char)

  /** The piece of regular expression a token becomes. */
  function Piece(t: Token): Regex {
    match t
    case OptionalDirs => Optional(Then(Star(NotNewline), Literal('/')))
    case Anything => Star(NotNewline)
    case Within => Star(NotSlash)
    case One => NotSlash
    case Exactly(c) => Literal(c)
  }

  function Compiled(ts: seq<Token>): Regex {
    if ts == [] then Empty else Then(Piece(ts[0]), Compiled(ts[1..]))
  }

  function Normalized(pattern: string): string {
    seq(|pattern|, i requires 0 <= i < |pattern| => if pattern[i] == '\\' then '/' else pattern[i])
  }

  function FirstToken(p: string): (r: (Token, nat))
    requires p != []
    ensures 0 < r.1 <= |p|
  {
    if |p| >= 3 && p[0] == '*' && p[1] == '*' && p[2] == '/' then (OptionalDirs, 3)
    else if |p| >= 2 && p[0] == '*' && p[1] == '*' then (Anything, 2)
    else if p[0] == '*' then (Within, 1)
    else if p[0] == '?' then (One, 1)
    else (Exactly(p[0]), 1)
  }

  function Tokens(p: string): seq<Token>
    decreases |p|
  {
    if p == [] then [] else [FirstToken(p).0] + Tokens(p[FirstToken(p).1..])
  }

  /** The expression, and how its characters compare: `lower` stands for the case folding of the regular expressions. */
  method GlobToRegex(pattern: string, caseSensitive: bool, lower: char -> char)
      returns (regex: Regex, fold: char -> char)
    ensures regex == Compiled(Tokens(Normalized(pattern))) && fold == if caseSensitive then Same() else lower
  {
    var p := Normalized(pattern);
    var parts: seq<Token> := [];
    var i, n := 0, |p|;
    while i < n
      invariant 0 <= i <= n == |p|
      invariant parts + Tokens(p[i..]) == Tokens(p)
    {
      TokensStep(p, parts, i);
      if i + 3 <= n && p[i] == '*' && p[i + 1] == '*' && p[i + 2] == '/' {
        parts := parts + [OptionalDirs];
        i := i + 3;
      } else if i + 2 <= n && p[i] == '*' && p[i + 1] == '*' {
        parts := parts + [Anything];
        i := i + 2;
      } else if p[i] == '*' {
        parts := parts + [Within];
        i := i + 1;
      } else if p[i] == '?' {
        parts := parts + [One];
        i := i + 1;
      } else {
        parts := parts + [Exactly(p[i])];
        i := i + 1;
      }
    }
    assert p[i..] == [] && parts + [] == parts;
    return Compiled(parts), if caseSensitive then Same() else lower;
  }

  /** The token at a position and the position after it. */
  function TokenAt(p: string, i: nat): (r: (Token, nat))
    requires i < |p|
    ensures i < r.1 <= |p|
  {
    if i + 3 <= |p| && p[i] == '*' && p[i + 1] == '*' && p[i + 2] == '/' then (OptionalDirs, i + 3)
    else if i + 2 <= |p| && p[i] == '*' && p[i + 1] == '*' then (Anything, i + 2)
    else if p[i] == '*' then (Within, i + 1) else if p[i] == '?' then (One, i + 1) else (Exactly(p[i]), i + 1)
  }

  lemma TokensStep(p: string, parts: seq<Token>, i: nat)
    requires i < |p|
    ensures var t := TokenAt(p, i); parts + Tokens(p[i..]) == (parts + [t.0]) + Tokens(p[t.1..])
  {
    var r, t := p[i..], TokenAt(p, i);
    assert FirstToken(r) == (t.0, t.1 - i);
    assert r[t.1 - i..] == p[t.1..];
  }

  // ------------------------------------------------- what a list of tokens denotes

  ghost predicate Matches(fold: char -> char, ts: seq<Token>, s: string)
    decreases ts
  {
    if ts == [] then s == []
    else
      match ts[0]
      case Exactly(c) => s != [] && fold(s[0]) == fold(c) && Matches(fold, ts[1..], s[1..])
      case One => s != [] && s[0] != '/' && Matches(fold, ts[1..], s[1..])
      case Within => exists k :: 0 <= k <= |s| && '/' !in s[..k] && Matches(fold, ts[1..], s[k..])
      case Anything => exists k :: 0 <= k <= |s| && '\n' !in s[..k] && Matches(fold, ts[1..], s[k..])
      case OptionalDirs =>
        || Matches(fold, ts[1..], s)
        || exists k :: 0 < k <= |s| && s[k - 1] == '/' && '\n' !in s[..k] && Matches(fold, ts[1..], s[k..])
  }

  lemma {:induction false} StarOfChars(fold: char -> char, body: Regex, s: string, c: char)
    requires SlashAlone(fold)
    requires (body == NotSlash && c == '/') || (body == NotNewline && c == '\n')
    ensures InLanguage(fold, Star(body), s) <==> c !in s
    decreases |s|
  {
    if s != [] {
      StarOfChars(fold, body, s[1..], c);
      assert s == [s[0]] + s[1..];
      assert s[..1] == [s[0]];
      assert InLanguage(fold, body, s[..1]) <==> s[0] != c;
      if InLanguage(fold, Star(body), s) {
        var k :| 0 < k <= |s| && InLanguage(fold, body, s[..k]) && InLanguage(fold, Star(body), s[k..]);
        assert k == 1;
      }
    }
  }

  lemma SlashOnly(fold: char -> char, x: string)
    requires SlashAlone(fold)
    ensures InLanguage(fold, Literal('/'), x) <==> x == ['/']
  {
  }

  lemma DirsCut(fold: char -> char, s: string, k: nat)
    requires SlashAlone(fold) && k <= |s|
    ensures InLanguage(fold, Star(NotNewline), s[..k]) && InLanguage(fold, Literal('/'), s[k..])
        <==> k == |s| - 1 && s[k] == '/' && '\n' !in s[..k]
  {
    StarOfChars(fold, NotNewline, s[..k], '\n');
    SlashOnly(fold, s[k..]);
  }

  lemma DirsOf(fold: char -> char, s: string)
    requires SlashAlone(fold)
    ensures InLanguage(fold, Then(Star(NotNewline), Literal('/')), s)
        <==> s != [] && s[|s| - 1] == '/' && '\n' !in s[..|s| - 1]
  {
    if s != [] && s[|s| - 1] == '/' && '\n' !in s[..|s| - 1] {
      DirsCut(fold, s, |s| - 1);
    }
    if InLanguage(fold, Then(Star(NotNewline), Literal('/')), s) {
      var k :| 0 <= k <= |s| && InLanguage(fold, Star(NotNewline), s[..k]) && InLanguage(fold, Literal('/'), s[k..]);
      DirsCut(fold, s, k);
    }
  }

  lemma DirsPiece(fold: char -> char, s: string)
    requires SlashAlone(fold)
    ensures InLanguage(fold, Piece(OptionalDirs), s) <==> s == [] || (s[|s| - 1] == '/' && '\n' !in s)
  {
    DirsOf(fold, s);
    if s != [] { assert s == s[..|s| - 1] + [s[|s| - 1]]; }
  }

  /** What one token's piece of expression matches. */
  lemma PieceMeaning(fold: char -> char, t: Token, s: string)
    requires SlashAlone(fold)
    ensures InLanguage(fold, Piece(t), s) <==>
              match t
              case OptionalDirs => s == [] || (s[|s| - 1] == '/' && '\n' !in s)
              case Anything => '\n' !in s
              case Within => '/' !in s
              case One => |s| == 1 && s[0] != '/'
              case Exactly(c) => |s| == 1 && fold(s[0]) == fold(c)
  {
    DirsPiece(fold, s);
    StarOfChars(fold, NotNewline, s, '\n');
    StarOfChars(fold, NotSlash, s, '/');
  }

  /** The compiled expression matches exactly the strings the tokens denote. */
  lemma {:induction false} CompiledIsTokens(fold: char -> char, ts: seq<Token>, s: string)
    requires SlashAlone(fold)
    ensures InLanguage(fold, Compiled(ts), s) <==> Matches(fold, ts, s)
    decreases ts
  {
    if ts != [] {
      forall k | 0 <= k <= |s|
        ensures InLanguage(fold, Compiled(ts[1..]), s[k..]) == Matches(fold, ts[1..], s[k..]) {
        CompiledIsTokens(fold, ts[1..], s[k..]);
      }
      FirstPiece(fold, ts, s);
      if InLanguage(fold, Compiled(ts), s) {
        var k :| 0 <= k <= |s| && InLanguage(fold, Piece(ts[0]), s[..k]) && InLanguage(fold, Compiled(ts[1..]), s[k..]);
        assert Cut(fold, ts, s, k);
      }
      if k :| Cut(fold, ts, s, k) {
        assert InLanguage(fold, Piece(ts[0]), s[..k]) && InLanguage(fold, Compiled(ts[1..]), s[k..]);
      }
    }
  }

  ghost predicate Cut(fold: char -> char, ts: seq<Token>, s: string, k: int)
    requires ts != []
  {
    0 <= k <= |s| && InLanguage(fold, Piece(ts[0]), s[..k]) && Matches(fold, ts[1..], s[k..])
  }

  lemma FirstPiece(fold: char -> char, ts: seq<Token>, s: string)
    requires SlashAlone(fold)
    requires ts != []
    ensures Matches(fold, ts, s) <==> exists k :: Cut(fold, ts, s, k)
  {
    forall k | 0 <= k <= |s| ensures InLanguage(fold, Piece(ts[0]), s[..k]) <==>
              match ts[0]
              case OptionalDirs => k == 0 || (s[k - 1] == '/' && '\n' !in s[..k])
              case Anything => '\n' !in s[..k]
              case Within => '/' !in s[..k]
              case One => k == 1 && s[0] != '/'
              case Exactly(c) => k == 1 && fold(s[0]) == fold(c) {
      PieceMeaning(fold, ts[0], s[..k]);
    }
    assert s[0..] == s;
    if s != [] { assert s[..1] == [s[0]]; }
    if Matches(fold, ts, s) {
      match ts[0] {
        case Exactly(c) => assert Cut(fold, ts, s, 1);
        case One => assert Cut(fold, ts, s, 1);
        case Within =>
          var k :| 0 <= k <= |s| && '/' !in s[..k] && Matches(fold, ts[1..], s[k..]);
          assert Cut(fold, ts, s, k);
        case Anything =>
          var k :| 0 <= k <= |s| && '\n' !in s[..k] && Matches(fold, ts[1..], s[k..]);
          assert Cut(fold, ts, s, k);
        case OptionalDirs =>
          if Matches(fold, ts[1..], s) {
            assert Cut(fold, ts, s, 0);
          } else {
            var k :| 0 < k <= |s| && s[k - 1] == '/' && '\n' !in s[..k] && Matches(fold, ts[1..], s[k..]);
            assert Cut(fold, ts, s, k);
          }
      }
    }
  }

  // ------------------------------------------------------------- segment by segment

  const STARS: string := ['*', '*']

  /** The position of the first slash, or the length. */
  function FirstSlash(s: string): (i: nat)
    ensures i <= |s| && '/' !in s[..i] && (i < |s| ==> s[i] == '/')
  {
    if s == [] || s[0] == '/' then 0
    else
      assert s[..1 + FirstSlash(s[1..])] == [s[0]] + s[1..][..FirstSlash(s[1..])];
      1 + FirstSlash(s[1..])
  }

  function Split(s: string): (r: seq<string>)
    ensures r != []
    decreases |s|
  {
    var i := FirstSlash(s);
    if i == |s| then [s] else [s[..i]] + Split(s[i + 1..])
  }

  /** One path segment against one pattern segment without `**`. */
  predicate SegmentGlob(fold: char -> char, p: string, x: string)
    decreases |p| + |x|
  {
    if p == [] then x == []
    else if p[0] == '*' then SegmentGlob(fold, p[1..], x) || (x != [] && SegmentGlob(fold, p, x[1..]))
    else x != [] && (p[0] == '?' || fold(p[0]) == fold(x[0])) && SegmentGlob(fold, p[1..], x[1..])
  }

  /** `**` before other segments absorbs any number of segments; at the end it absorbs one or more. */
  predicate SegmentsMatch(fold: char -> char, ps: seq<string>, xs: seq<string>)
    decreases |ps| + |xs|
  {
    if ps == [] then xs == []
    else if ps[0] == STARS then
      if |ps| == 1 then xs != [] else SegmentsMatch(fold, ps[1..], xs) || (xs != [] && SegmentsMatch(fold, ps, xs[1..]))
    else xs != [] && SegmentGlob(fold, ps[0], xs[0]) && SegmentsMatch(fold, ps[1..], xs[1..])
  }

  predicate NoStars(p: string) { forall i :: 0 <= i < |p| - 1 ==> !(p[i] == '*' && p[i + 1] == '*') }

  /** `**` only ever fills a whole segment. */
  predicate WholeStars(p: string) { forall seg :: seg in Split(p) ==> seg == STARS || NoStars(seg) }

  /** No line break and no empty segment. */
  predicate Clean(s: string) { '\n' !in s && forall seg :: seg in Split(s) ==> seg != [] }

  /** The exact number of segments a `**` absorbs. */
  lemma {:induction false} StarsAbsorb(fold: char -> char, ps: seq<string>, xs: seq<string>)
    requires ps != []
    ensures SegmentsMatch(fold, [STARS] + ps, xs) <==> exists k :: 0 <= k <= |xs| && SegmentsMatch(fold, ps, xs[k..])
    decreases |xs|
  {
    assert ([STARS] + ps)[1..] == ps;
    assert xs[0..] == xs;
    if xs != [] {
      StarsAbsorb(fold, ps, xs[1..]);
      assert forall k :: 0 <= k < |xs| ==> xs[1..][k..] == xs[k + 1..];
      if k :| 0 <= k <= |xs| && SegmentsMatch(fold, ps, xs[k..]) && k > 0 {
        assert SegmentsMatch(fold, ps, xs[1..][k - 1..]);
      }
      if k :| 0 <= k <= |xs| - 1 && SegmentsMatch(fold, ps, xs[1..][k..]) {
        assert SegmentsMatch(fold, ps, xs[k + 1..]);
      }
    }
  }

  function PlainToken(c: char): Token { if c == '*' then Within else if c == '?' then One else Exactly(c) }

  function Plain(seg: string): seq<Token> { seq(|seg|, i requires 0 <= i < |seg| => PlainToken(seg[i])) }

  lemma PlainCons(seg: string, ts: seq<Token>)
    requires seg != []
    ensures Plain(seg) + ts == [PlainToken(seg[0])] + (Plain(seg[1..]) + ts)
    ensures (Plain(seg) + ts)[1..] == Plain(seg[1..]) + ts
  {
  }

  lemma {:induction false} SegmentTokens(seg: string, rest: string)
    requires NoStars(seg) && (rest == [] || rest[0] == '/')
    ensures Tokens(seg + rest) == Plain(seg) + Tokens(rest)
  {
    if seg == [] {
      assert seg + rest == rest;
    } else {
      var p := seg + rest;
      assert |p| >= 2 ==> p[1] == if |seg| > 1 then seg[1] else rest[0];
      assert FirstToken(p) == (PlainToken(seg[0]), 1);
      assert p[1..] == seg[1..] + rest;
      SegmentTokens(seg[1..], rest);
      PlainCons(seg, Tokens(rest));
    }
  }

  lemma WithinStep(fold: char -> char, us: seq<Token>, s: string)
    ensures Matches(fold, [Within] + us, s)
        <==> Matches(fold, us, s) || (s != [] && s[0] != '/' && Matches(fold, [Within] + us, s[1..]))
  {
    assert ([Within] + us)[1..] == us;
    assert s[0..] == s && s[..0] == [];
    if k :| 0 <= k <= |s| && '/' !in s[..k] && Matches(fold, us, s[k..]) && k > 0 {
      assert s[..k] == [s[0]] + s[1..][..k - 1];
      assert s[1..][k - 1..] == s[k..];
      assert Matches(fold, [Within] + us, s[1..]);
    }
    if s != [] && s[0] != '/' {
      if k :| 0 <= k <= |s[1..]| && '/' !in s[1..][..k] && Matches(fold, us, s[1..][k..]) {
        assert s[..k + 1] == [s[0]] + s[1..][..k];
        assert s[k + 1..] == s[1..][k..];
        assert Matches(fold, [Within] + us, s);
      }
    }
  }

  ghost predicate DirCut(fold: char -> char, us: seq<Token>, s: string, k: int) {
    0 < k <= |s| && s[k - 1] == '/' && '\n' !in s[..k] && Matches(fold, us, s[k..])
  }

  lemma DirsMeaning(fold: char -> char, us: seq<Token>, s: string)
    ensures Matches(fold, [OptionalDirs] + us, s) <==> Matches(fold, us, s) || exists k :: DirCut(fold, us, s, k)
  {
    assert ([OptionalDirs] + us)[1..] == us;
    if k :| DirCut(fold, us, s, k) {
      assert 0 < k <= |s| && s[k - 1] == '/' && '\n' !in s[..k] && Matches(fold, us, s[k..]);
    }
    if Matches(fold, [OptionalDirs] + us, s) && !Matches(fold, us, s) {
      var k :| 0 < k <= |s| && s[k - 1] == '/' && '\n' !in s[..k] && Matches(fold, us, s[k..]);
      assert DirCut(fold, us, s, k);
    }
  }

  lemma CutAfterSlash(fold: char -> char, us: seq<Token>, s: string, k: int)
    requires '\n' !in s && DirCut(fold, us, s, k)
    ensures var i := FirstSlash(s);
        i < k && (k == i + 1 || DirCut(fold, us, s[i + 1..], k - i - 1)) && s[k..] == s[i + 1..][k - i - 1..]
  {
    var i := FirstSlash(s);
    assert forall j :: 0 <= j < i ==> s[j] == s[..i][j];
    assert s[i + 1..][k - i - 1..] == s[k..];
  }

  lemma CutBeforeSlash(fold: char -> char, us: seq<Token>, s: string, k: int)
    requires '\n' !in s && FirstSlash(s) < |s| && DirCut(fold, us, s[FirstSlash(s) + 1..], k)
    ensures DirCut(fold, us, s, k + FirstSlash(s) + 1)
  {
    var i := FirstSlash(s);
    var tail := s[i + 1..];
    assert s[k + i + 1..] == tail[k..];
    assert s[k + i] == tail[k - 1];
  }

  /** A leading `**` and slash: nothing, or everything up to the first slash and then the same again. */
  lemma DirsStep(fold: char -> char, us: seq<Token>, s: string)
    requires SlashAlone(fold)
    requires '\n' !in s
    ensures var i := FirstSlash(s);
            Matches(fold, [OptionalDirs] + us, s)
            <==> Matches(fold, us, s) || (i < |s| && Matches(fold, [OptionalDirs] + us, s[i + 1..]))
  {
    var i := FirstSlash(s);
    DirsMeaning(fold, us, s);
    if k :| DirCut(fold, us, s, k) {
      CutAfterSlash(fold, us, s, k);
      DirsMeaning(fold, us, s[i + 1..]);
    }
    if i < |s| {
      DirsMeaning(fold, us, s[i + 1..]);
      if Matches(fold, us, s[i + 1..]) { assert DirCut(fold, us, s, i + 1); }
      var tail := s[i + 1..];
      if k :| DirCut(fold, us, tail, k) { CutBeforeSlash(fold, us, s, k); }
    }
  }

  lemma FirstSlashTail(s: string)
    requires s != [] && s[0] != '/'
    ensures FirstSlash(s) == 1 + FirstSlash(s[1..]) && s[..FirstSlash(s)] == [s[0]] + s[1..][..FirstSlash(s[1..])]
    ensures s[FirstSlash(s)..] == s[1..][FirstSlash(s[1..])..]
    ensures s[..FirstSlash(s)][1..] == s[1..][..FirstSlash(s[1..])]
  {
  }

  /** A pattern segment followed by a slash, or by nothing, takes exactly the path's first segment. */
  lemma {:induction false} SegmentMatches(fold: char -> char, seg: string, ts: seq<Token>, s: string)
    requires SlashAlone(fold)
    requires '/' !in seg && (ts == [] || ts[0] == Exactly('/'))
    ensures Matches(fold, Plain(seg) + ts, s)
        <==> SegmentGlob(fold, seg, s[..FirstSlash(s)]) && Matches(fold, ts, s[FirstSlash(s)..])
    decreases |seg| + |s|
  {
    var i := FirstSlash(s);
    if seg == [] {
      assert Plain(seg) + ts == ts;
      assert s[0..] == s;
    } else {
      PlainCons(seg, ts);
      var us := Plain(seg[1..]) + ts;
      if seg[0] == '*' {
        SegmentMatches(fold, seg[1..], ts, s);
        WithinStep(fold, us, s);
        if s != [] && s[0] != '/' {
          FirstSlashTail(s);
          SegmentMatches(fold, seg, ts, s[1..]);
        }
      } else if s != [] && s[0] != '/' {
        FirstSlashTail(s);
        SegmentMatches(fold, seg[1..], ts, s[1..]);
      } else {
        assert seg[0] in seg;
      }
    }
  }

  lemma {:induction false} NoSegmentsNoMatch(fold: char -> char, ps: seq<string>)
    requires ps != []
    ensures !SegmentsMatch(fold, ps, [])
  {
    if ps[0] == STARS && |ps| > 1 { NoSegmentsNoMatch(fold, ps[1..]); }
  }

  lemma FirstSlashOf(head: string, tail: string)
    requires '/' !in head
    ensures FirstSlash(head + (['/'] + tail)) == |head|
  {
    var s := head + (['/'] + tail);
    var i := FirstSlash(s);
    assert forall k :: 0 <= k < |head| ==> s[k] == head[k] && head[k] in head;
    assert s[|head|] == '/';
    assert forall k :: 0 <= k < i ==> s[k] == s[..i][k];
  }

  lemma SplitOf(head: string, tail: string)
    requires '/' !in head
    ensures Split(head + (['/'] + tail)) == [head] + Split(tail)
  {
    var s := head + (['/'] + tail);
    FirstSlashOf(head, tail);
    assert s[..|head|] == head && s[|head| + 1..] == tail;
  }

  lemma MembersCons<T>(x: T, rest: seq<T>)
    ensures x in [x] + rest && (forall y :: y in rest ==> y in [x] + rest) && ([x] + rest)[0] == x
        && ([x] + rest)[1..] == rest
  {
  }

  lemma SlashToken(rest: string)
    ensures Tokens(['/'] + rest) == [Exactly('/')] + Tokens(rest)
  {
    var p := ['/'] + rest;
    assert FirstToken(p) == (Exactly('/'), 1);
    assert p[1..] == rest;
  }

  lemma StarsToken(rest: string)
    ensures Tokens(STARS + (['/'] + rest)) == [OptionalDirs] + Tokens(rest)
  {
    var p := STARS + (['/'] + rest);
    assert FirstToken(p) == (OptionalDirs, 3);
    assert p[3..] == rest;
  }

  lemma {:induction false} TokensMatchSegments(fold: char -> char, p: string, s: string)
    requires SlashAlone(fold)
    requires WholeStars(p) && Clean(s)
    ensures Matches(fold, Tokens(p), s) <==> SegmentsMatch(fold, Split(p), Split(s))
    decreases |p| + |s|, 1
  {
    var j := FirstSlash(p);
    if j == |p| {
      assert Split(p) == [p] && p in [p];
      LastSegment(fold, p, s);
    } else {
      var head, rest := p[..j], p[j + 1..];
      assert p == head + (['/'] + rest);
      SplitOf(head, rest);
      MembersCons(head, Split(rest));
      if head == STARS {
        StarsSegment(fold, rest, s);
      } else {
        PlainSegment(fold, head, rest, s);
      }
    }
  }

  lemma LastSegment(fold: char -> char, p: string, s: string)
    requires SlashAlone(fold)
    requires (p == STARS || NoStars(p)) && '\n' !in s && FirstSlash(p) == |p|
    ensures Matches(fold, Tokens(p), s) <==> SegmentsMatch(fold, [p], Split(s))
  {
    if p == STARS {
      StarsAlone(fold, s);
    } else {
      PlainAlone(p);
      LastPlain(fold, p, s);
      SegmentMatches(fold, p, [], s);
      RestEmpty(fold, s);
    }
  }

  lemma RestEmpty(fold: char -> char, s: string)
    ensures Matches(fold, [], s[FirstSlash(s)..]) <==> FirstSlash(s) == |s|
    ensures FirstSlash(s) == |s| ==> s[..FirstSlash(s)] == s
  {
  }

  lemma PlainAlone(p: string)
    requires NoStars(p) && FirstSlash(p) == |p|
    ensures Tokens(p) == Plain(p) + [] && '/' !in p
  {
    SegmentTokens(p, []);
    TakeAll(p);
    assert p + [] == p;
  }

  lemma StarsAlone(fold: char -> char, s: string)
    requires '\n' !in s
    ensures Matches(fold, Tokens(STARS), s)
  {
    assert FirstToken(STARS) == (Anything, 2);
    assert STARS[2..] == [];
    assert Tokens(STARS) == [Anything];
    assert s[|s|..] == [] && s[..|s|] == s;
  }

  lemma LastPlain(fold: char -> char, p: string, s: string)
    requires p != STARS
    ensures SegmentsMatch(fold, [p], Split(s)) <==> FirstSlash(s) == |s| && SegmentGlob(fold, p, s)
  {
    assert [p][1..] == [];
    var i := FirstSlash(s);
    if i < |s| {
      MembersCons(s[..i], Split(s[i + 1..]));
    }
  }

  /** The rest of a path after its first segment. */
  lemma TailSegments(s: string)
    requires Clean(s) && FirstSlash(s) < |s|
    ensures var tail := s[FirstSlash(s) + 1..]; Clean(tail) && Split(s) == [s[..FirstSlash(s)]] + Split(tail)
  {
    var tail := s[FirstSlash(s) + 1..];
    MembersCons(s[..FirstSlash(s)], Split(tail));
    assert forall seg :: seg in Split(tail) ==> seg in Split(s);
  }

  lemma StarsCons(fold: char -> char, ps: seq<string>, x: string, xs: seq<string>)
    requires ps != []
    ensures SegmentsMatch(fold, [STARS] + ps, [x] + xs)
        <==> SegmentsMatch(fold, ps, [x] + xs) || SegmentsMatch(fold, [STARS] + ps, xs)
  {
    MembersCons(STARS, ps);
    MembersCons(x, xs);
  }

  lemma StarsOne(fold: char -> char, ps: seq<string>, x: string)
    requires ps != []
    ensures SegmentsMatch(fold, [STARS] + ps, [x]) <==> SegmentsMatch(fold, ps, [x])
  {
    StarsCons(fold, ps, x, []);
    assert [x] + [] == [x];
    NoSegmentsNoMatch(fold, [STARS] + ps);
  }

  lemma {:induction false} StarsSegment(fold: char -> char, rest: string, s: string)
    requires SlashAlone(fold)
    requires WholeStars(STARS + (['/'] + rest)) && WholeStars(rest) && Clean(s)
    ensures Matches(fold, Tokens(STARS + (['/'] + rest)), s) <==> SegmentsMatch(fold, [STARS] + Split(rest), Split(s))
    decreases |rest| + 3 + |s|, 0
  {
    var i, ps := FirstSlash(s), Split(rest);
    StarsToken(rest);
    DirsStep(fold, Tokens(rest), s);
    TokensMatchSegments(fold, rest, s);
    if i < |s| {
      TailSegments(s);
      StarsCons(fold, ps, s[..i], Split(s[i + 1..]));
      StarsSegment(fold, rest, s[i + 1..]);
    } else {
      StarsOne(fold, ps, s);
    }
  }

  lemma PlainCut(fold: char -> char, seg: string, ps: seq<string>, x: string, xs: seq<string>)
    requires seg != STARS
    ensures SegmentsMatch(fold, [seg] + ps, [x] + xs) <==> SegmentGlob(fold, seg, x) && SegmentsMatch(fold, ps, xs)
  {
    MembersCons(seg, ps);
    MembersCons(x, xs);
  }

  lemma {:induction false} PlainSegment(fold: char -> char, seg: string, rest: string, s: string)
    requires SlashAlone(fold)
    requires '/' !in seg && seg != STARS && NoStars(seg) && WholeStars(rest) && Clean(s)
    ensures Matches(fold, Tokens(seg + (['/'] + rest)), s) <==> SegmentsMatch(fold, [seg] + Split(rest), Split(s))
    decreases |seg| + 1 + |rest| + |s|, 0
  {
    var i, ps := FirstSlash(s), Split(rest);
    SegmentThenSlash(fold, seg, rest, s);
    if i < |s| {
      TailSegments(s);
      PlainCut(fold, seg, ps, s[..i], Split(s[i + 1..]));
      SlashStep(fold, Tokens(rest), s[i..], s[i + 1..]);
      TokensMatchSegments(fold, rest, s[i + 1..]);
    } else {
      SlashNeeded(fold, Tokens(rest), s[i..]);
      PlainLast(fold, seg, ps, s);
    }
  }

  lemma SegmentThenSlash(fold: char -> char, seg: string, rest: string, s: string)
    requires SlashAlone(fold) && '/' !in seg && NoStars(seg)
    ensures Matches(fold, Tokens(seg + (['/'] + rest)), s)
        <==> && SegmentGlob(fold, seg, s[..FirstSlash(s)])
             && Matches(fold, [Exactly('/')] + Tokens(rest), s[FirstSlash(s)..])
  {
    SegmentTokens(seg, ['/'] + rest);
    SlashToken(rest);
    SegmentMatches(fold, seg, [Exactly('/')] + Tokens(rest), s);
  }

  lemma SlashNeeded(fold: char -> char, us: seq<Token>, s: string)
    requires s == []
    ensures !Matches(fold, [Exactly('/')] + us, s)
  {
  }

  /** One segment alone does not match two or more. */
  lemma PlainLast(fold: char -> char, seg: string, ps: seq<string>, s: string)
    requires seg != STARS && ps != [] && FirstSlash(s) == |s|
    ensures !SegmentsMatch(fold, [seg] + ps, Split(s))
  {
    NoSegmentsNoMatch(fold, ps);
    PlainCut(fold, seg, ps, s, []);
    assert [s] + [] == [s];
  }

  lemma SlashStep(fold: char -> char, us: seq<Token>, s: string, tail: string)
    requires SlashAlone(fold)
    requires s == ['/'] + tail
    ensures Matches(fold, [Exactly('/')] + us, s) <==> Matches(fold, us, tail)
  {
    assert ([Exactly('/')] + us)[1..] == us;
    assert s[1..] == tail;
  }

  /** For a pattern whose `**` fills whole segments, on a clean path, the compiled expression is the segment matcher. */
  lemma GlobIsSegmentMatcher(fold: char -> char, pattern: string, path: string)
    requires SlashAlone(fold)
    requires WholeStars(Normalized(pattern)) && Clean(path)
    ensures Accepts(fold, Compiled(Tokens(Normalized(pattern))), path)
        <==> SegmentsMatch(fold, Split(Normalized(pattern)), Split(path))
  {
    var ts := Tokens(Normalized(pattern));
    CompiledIsTokens(fold, ts, path);
    TokensMatchSegments(fold, Normalized(pattern), path);
  }

  /** On any path the compiled expression accepts what the tokens denote, up to one final line break. */
  lemma GlobIsTokens(fold: char -> char, pattern: string, path: string)
    requires SlashAlone(fold)
    ensures var ts := Tokens(Normalized(pattern));
            Accepts(fold, Compiled(ts), path)
            <==> || Matches(fold, ts, path)
                 || (path != [] && path[|path| - 1] == '\n' && Matches(fold, ts, path[..|path| - 1]))
  {
    var ts := Tokens(Normalized(pattern));
    CompiledIsTokens(fold, ts, path);
    if path != [] { CompiledIsTokens(fold, ts, path[..|path| - 1]); }
  }

  // ----------------------------------------------------- how a pattern is cut into tokens

  ghost function TextOf(t: Token): string {
    match t
    case OptionalDirs => "**/"
    case Anything => "**"
    case Within => "*"
    case One => "?"
    case Exactly(c) => [c]
  }

  ghost function TextsOf(ts: seq<Token>): string { if ts == [] then "" else TextOf(ts[0]) + TextsOf(ts[1..]) }

  /** Each token is as long as it can be. */
  ghost predicate Greedy(ts: seq<Token>) {
    && (forall i :: 0 <= i < |ts| ==> ts[i] != Exactly('*') && ts[i] != Exactly('?'))
    && (forall i :: 0 <= i < |ts| - 1 && ts[i] == Within ==> ts[i + 1] !in {Within, Anything, OptionalDirs})
    && (forall i :: 0 <= i < |ts| - 1 && ts[i] == Anything ==> ts[i + 1] != Exactly('/'))
  }

  lemma FirstTokenText(p: string)
    requires p != []
    ensures var (t, n) := FirstToken(p);
            && TextOf(t) == p[..n] && t != Exactly('*') && t != Exactly('?')
            && (t == Within && n < |p| ==> p[n] != '*') && (t == Anything && n < |p| ==> p[n] != '/')
  {
  }

  lemma FirstTokenStarts(p: string)
    requires p != []
    ensures FirstToken(p).0 in {Within, Anything, OptionalDirs} <==> p[0] == '*'
    ensures FirstToken(p).0 == Exactly('/') <==> p[0] == '/'
  {
  }

  /** A pattern's tokens spell it from left to right, each as long as it can be: a double star with its slash, a double
      star, a star, a question mark, or one other character. */
  lemma {:induction false} TokensExactly(p: string)
    ensures TextsOf(Tokens(p)) == p && Greedy(Tokens(p))
    decreases |p|
  {
    if p != [] {
      TokensExactly(p[FirstToken(p).1..]);
      TextCons(p);
      GreedyStep(p);
    }
  }

  lemma TextCons(p: string)
    requires p != [] && TextsOf(Tokens(p[FirstToken(p).1..])) == p[FirstToken(p).1..]
    ensures TextsOf(Tokens(p)) == p
  {
    FirstTokenText(p);
    TextJoins(p, FirstToken(p).0, FirstToken(p).1, Tokens(p[FirstToken(p).1..]));
  }

  lemma TextJoins(p: string, t: Token, n: nat, rest: seq<Token>)
    requires n <= |p| && TextOf(t) == p[..n] && TextsOf(rest) == p[n..]
    ensures TextsOf([t] + rest) == p
  {
    TextsCons(t, rest);
    assert p == p[..n] + p[n..];
  }

  lemma TextsCons(t: Token, rest: seq<Token>)
    ensures TextsOf([t] + rest) == TextOf(t) + TextsOf(rest)
  {
    assert ([t] + rest)[1..] == rest;
  }

  lemma GreedyStep(p: string)
    requires p != [] && Greedy(Tokens(p[FirstToken(p).1..]))
    ensures Greedy(Tokens(p))
  {
    var (t, n) := FirstToken(p);
    FirstTokenText(p);
    if n < |p| {
      FirstTokenStarts(p[n..]);
      assert p[n..][0] == p[n] && Tokens(p[n..])[0] == FirstToken(p[n..]).0;
    }
    GreedyCons(t, Tokens(p[n..]));
  }

  lemma GreedyCons(t: Token, rest: seq<Token>)
    requires Greedy(rest) && t != Exactly('*') && t != Exactly('?')
    requires rest != [] && t == Within ==> rest[0] !in {Within, Anything, OptionalDirs}
    requires rest != [] && t == Anything ==> rest[0] != Exactly('/')
    ensures Greedy([t] + rest)
  {
  }

  /** Only backslashes are different, and they are slashes. */
  lemma NormalizedExactly(p: string)
    ensures |Normalized(p)| == |p|
    ensures forall i :: 0 <= i < |p| ==> Normalized(p)[i] == if p[i] == '\\' then '/' else p[i]
  {
  }
}
