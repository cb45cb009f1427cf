/**
 * The subset of Python's `re` module that a pattern built with `re.escape`
 * needs: literal characters, `.`, `.*`, the anchors `^` (leading) and `$`,
 * and `re.match`, which anchors the match at the start of the subject and
 * accepts any prefix. Subjects are assumed to hold no newline, so `.` matches
 * every character and `$` only the end of the subject.
 */
module PyRe {
  import opened Wrappers
  import opened PyStr

  datatype Token =
    | Lit(c: char)  // one literal character
    | AnyChar       // `.`
    | AnyRun        // `.*`, greedy, backtracking
    | EndAnchor     // `$`

  /** The characters `re.escape` prefixes with a backslash (Python 3.7+):
      `\t \n \v \f \r`, space, `# $ &`, `( ) * +`, `- .`, `?`, `[ \ ] ^`
      and `{ | } ~`. */
  predicate IsReSpecial(c: char) {
    var n := c as int;
    (9 <= n <= 13) || n == 32 || n == 35 || n == 36 || n == 38
    || (40 <= n <= 43) || n == 45 || n == 46 || n == 63
    || (91 <= n <= 94) || (123 <= n <= 126)
  }

  /** The unescaped characters this subset does not give a meaning to:
      groups `( )`, repetitions `* + ? { }`, classes `[ ]`, alternation `|`
      and a `^` after the start. */
  predicate IsUnmodelledMeta(c: char) {
    var n := c as int;
    n == 40 || n == 41 || n == 42 || n == 43 || n == 63 || n == 91 || n == 93
    || n == 94 || n == 123 || n == 124 || n == 125
  }

  predicate IsAsciiAlnum(c: char) {
    ('a' <= c <= 'z') || ('A' <= c <= 'Z') || ('0' <= c <= '9')
  }

  /** What `re.escape` writes for one character. */
  function EscapeChar(c: char): string {
    if IsReSpecial(c) then ['\\', c] else [c]
  }

  /** `re.escape(s)`. */
  function Escape(s: string): (r: string)
    ensures |s| <= |r| <= 2 * |s|
  {
    if s == [] then [] else EscapeChar(s[0]) + Escape(s[1..])
  }

  /** The tokens that match the characters of `s` literally. */
  function Lits(s: string): (ts: seq<Token>)
    ensures |ts| == |s|
    ensures forall i :: 0 <= i < |s| ==> ts[i] == Lit(s[i])
  {
    seq(|s|, i requires 0 <= i < |s| => Lit(s[i]))
  }

  function Prepend(t: Token, rest: Option<seq<Token>>): Option<seq<Token>> {
    match rest
    case None => None
    case Some(ts) => Some([t] + ts)
  }

  /** Parses the pattern text after an optional leading `^`; None for syntax
      outside the modelled subset. */
  function ParseBody(p: string): Option<seq<Token>>
    decreases |p|
  {
    if p == [] then Some([])
    else if p[0] == '\\' then
      if |p| >= 2 && !IsAsciiAlnum(p[1]) then Prepend(Lit(p[1]), ParseBody(p[2..]))
      else None
    else if p[0] == '.' then
      if |p| >= 2 && p[1] == '*' then Prepend(AnyRun, ParseBody(p[2..]))
      else Prepend(AnyChar, ParseBody(p[1..]))
    else if p[0] == '$' then Prepend(EndAnchor, ParseBody(p[1..]))
    else if IsUnmodelledMeta(p[0]) then None
    else Prepend(Lit(p[0]), ParseBody(p[1..]))
  }

  /** `re.compile(p)`; a leading `^` adds nothing under `re.match`. */
  function Compile(p: string): Option<seq<Token>> {
    if StartsWith(p, "^") then ParseBody(p[1..]) else ParseBody(p)
  }

  /** `re.match(pattern, s)` is not None: some prefix of `s` matches. */
  function Match(ts: seq<Token>, s: string): bool
    decreases |s|, |ts|
  {
    if ts == [] then true
    else match ts[0]
      case Lit(c) => s != [] && s[0] == c && Match(ts[1..], s[1..])
      case AnyChar => s != [] && Match(ts[1..], s[1..])
      case AnyRun => Match(ts[1..], s) || (s != [] && Match(ts, s[1..]))
      case EndAnchor => s == [] && Match(ts[1..], s)
  }

  /** Escaping distributes over concatenation. */
  lemma {:induction false} EscapeAppend(a: string, b: string)
    ensures Escape(a + b) == Escape(a) + Escape(b)
  {
    if a != [] {
      var e := EscapeChar(a[0]);
      assert (a + b)[0] == a[0];
      assert (a + b)[1..] == a[1..] + b;
      EscapeAppend(a[1..], b);
      calc {
        Escape(a + b);
        e + Escape(a[1..] + b);
        e + (Escape(a[1..]) + Escape(b));
        (e + Escape(a[1..])) + Escape(b);
        Escape(a) + Escape(b);
      }
    } else {
      assert a + b == b;
    }
  }

  function Concat(ts: seq<Token>, o: Option<seq<Token>>): Option<seq<Token>> {
    match o
    case None => None
    case Some(us) => Some(ts + us)
  }

  /** Letters and digits are never escaped, so a word is its own escape. */
  lemma {:induction false} EscapePlain(s: string)
    requires forall i :: 0 <= i < |s| ==> IsAsciiAlnum(s[i])
    ensures Escape(s) == s
  {
    if s != [] {
      assert !IsReSpecial(s[0]);
      EscapePlain(s[1..]);
    }
  }

  /** Two words around a '.': only the dot is escaped. */
  lemma EscapeDotted(a: string, b: string)
    requires forall i :: 0 <= i < |a| ==> IsAsciiAlnum(a[i])
    requires forall i :: 0 <= i < |b| ==> IsAsciiAlnum(b[i])
    ensures Escape(a + "." + b) == a + "\\." + b
  {
    var dot := ".";
    EscapeAppend(a + dot, b);
    EscapeAppend(a, dot);
    EscapePlain(a);
    EscapePlain(b);
    assert Escape(dot) == "\\." by {
      assert IsReSpecial(dot[0]);
      assert Escape(dot) == EscapeChar('.') + Escape(dot[1..]);
    }
  }

  /** Parsing escaped text yields one literal token per character: `re.escape`
      makes every character of its argument stand for itself. */
  lemma {:induction false} ParseEscaped(b: string, rest: string)
    ensures ParseBody(Escape(b) + rest) == Concat(Lits(b), ParseBody(rest))
  {
    if b == [] {
      assert Escape(b) + rest == rest;
      assert forall ts :: Lits(b) + ts == ts;
    } else {
      ParseEscaped(b[1..], rest);
      ParseOneEscaped(b[0], Escape(b[1..]) + rest);
      EscapeCons(b, rest);
      assert Lits(b) == [Lit(b[0])] + Lits(b[1..]);
      ConcatPrepend(Lit(b[0]), Lits(b[1..]), ParseBody(rest));
    }
  }

  lemma EscapeCons(b: string, rest: string)
    requires b != []
    ensures Escape(b) + rest == EscapeChar(b[0]) + (Escape(b[1..]) + rest)
  {
    EscapeUnfold(b);
    AppendAssoc(EscapeChar(b[0]), Escape(b[1..]), rest);
  }

  lemma AppendAssoc<T>(a: seq<T>, b: seq<T>, c: seq<T>)
    ensures (a + b) + c == a + (b + c)
  {
  }

  lemma EscapeUnfold(b: string)
    requires b != []
    ensures Escape(b) == EscapeChar(b[0]) + Escape(b[1..])
  {
  }

  /** An escaped character parses back to itself as a literal. */
  lemma ParseOneEscaped(c: char, tail: string)
    ensures ParseBody(EscapeChar(c) + tail) == Prepend(Lit(c), ParseBody(tail))
  {
    var p := EscapeChar(c) + tail;
    if IsReSpecial(c) {
      assert p[2..] == tail;
    } else {
      assert p[1..] == tail;
    }
  }

  lemma ConcatPrepend(t: Token, ts: seq<Token>, o: Option<seq<Token>>)
    ensures Prepend(t, Concat(ts, o)) == Concat([t] + ts, o)
  {
    match o
    case None =>
    case Some(us) => assert [t] + (ts + us) == [t] + ts + us;
  }

  /** `re.compile(re.escape(b))` matches `b` literally. */
  lemma CompileEscaped(b: string)
    ensures Compile(Escape(b)) == Some(Lits(b))
  {
    ParseEscaped(b, []);
    assert Escape(b) + [] == Escape(b);
    assert Lits(b) + [] == Lits(b);
    if b != [] {
      assert Escape(b)[0] == '\\' || Escape(b)[0] == b[0];
    }
  }

  /** A leading `^` is dropped before parsing. */
  lemma CompileAnchored(body: string)
    ensures Compile("^" + body) == ParseBody(body)
  {
    var p := "^" + body;
    assert p[..1] == "^" && p[1..] == body;
  }

  /** `$` on its own is the end anchor. */
  lemma ParseEnd(p: string)
    requires p == ['$']
    ensures ParseBody(p) == Some([EndAnchor])
  {
    assert p[0] == '$' && p[1..] == [];
    assert ParseBody(p) == Prepend(EndAnchor, ParseBody([]));
    assert [EndAnchor] + [] == [EndAnchor];
  }

  /** A leading `.*` is a run. */
  lemma ParseRun(p: string, rest: string)
    requires |p| >= 2 && p[0] == '.' && p[1] == '*' && p[2..] == rest
    ensures ParseBody(p) == Prepend(AnyRun, ParseBody(rest))
  {
  }

  /** A run of literal tokens consumes exactly its text. */
  lemma {:induction false} MatchLits(w: string, ts: seq<Token>, s: string)
    ensures Match(Lits(w) + ts, s) <==> StartsWith(s, w) && Match(ts, s[|w|..])
  {
    if w != [] {
      var all := Lits(w) + ts;
      assert all[0] == Lit(w[0]);
      assert all[1..] == Lits(w[1..]) + ts;
      if s != [] {
        MatchLits(w[1..], ts, s[1..]);
        if |w| <= |s| {
          assert s[1..][|w| - 1..] == s[|w|..];
        }
        if StartsWith(s, w) {
          assert s[1..][..|w| - 1] == w[1..];
        }
        if s[0] == w[0] && StartsWith(s[1..], w[1..]) {
          assert s[..|w|] == [s[0]] + s[1..][..|w| - 1];
        }
      }
    } else {
      assert Lits(w) + ts == ts;
      assert s[0..] == s;
    }
  }

  /** `.*` then literal text then `$` accepts exactly the subjects that end in
      that text. */
  lemma {:induction false} MatchRunThenSuffix(w: string, s: string)
    ensures Match([AnyRun] + Lits(w) + [EndAnchor], s) <==> EndsWith(s, w)
  {
    var ts := [AnyRun] + Lits(w) + [EndAnchor];
    assert ts[0] == AnyRun;
    assert ts[1..] == Lits(w) + [EndAnchor];
    MatchLits(w, [EndAnchor], s);
    assert Match(Lits(w) + [EndAnchor], s) <==> s == w by {
      if StartsWith(s, w) {
        assert s == w <==> s[|w|..] == [];
      }
    }
    if s != [] {
      MatchRunThenSuffix(w, s[1..]);
      if |w| < |s| {
        assert s[|s| - |w|..] == s[1..][|s| - 1 - |w|..];
      }
    }
  }
}
