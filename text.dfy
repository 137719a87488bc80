/**
 * The JavaScript string operations the streaming client relies on:
 * `String.prototype.trim`, `startsWith`, `slice` and `split('\n')`,
 * with strings as sequences of characters.
 */
module Text {

  /** The characters `trim` removes: ECMAScript WhiteSpace and LineTerminator. */
  predicate IsSpace(c: char)
  {
    c == '\t' || c == '\n' || c == '\U{000B}' || c == '\U{000C}' || c == '\r' || c == ' ' ||
    c == '\U{00A0}' || c == '\U{1680}' || ('\U{2000}' <= c <= '\U{200A}') ||
    c == '\U{2028}' || c == '\U{2029}' || c == '\U{202F}' || c == '\U{205F}' ||
    c == '\U{3000}' || c == '\U{FEFF}'
  }

  function TrimStart(s: string): (r: string)
    ensures |r| <= |s| && r == s[|s| - |r|..]
    ensures r == [] || !IsSpace(r[0])
    ensures forall k :: 0 <= k < |s| - |r| ==> IsSpace(s[k])
  {
    if s != [] && IsSpace(s[0]) then TrimStart(s[1..]) else s
  }

  function TrimEnd(s: string): (r: string)
    ensures |r| <= |s| && r == s[..|r|]
    ensures r == [] || !IsSpace(r[|r| - 1])
    ensures forall k :: |r| <= k < |s| ==> IsSpace(s[k])
  {
    if s != [] && IsSpace(s[|s| - 1]) then TrimEnd(s[..|s| - 1]) else s
  }

  /** `s.trim()` */
  function Trim(s: string): string
  {
    TrimEnd(TrimStart(s))
  }

  /** `s.trim()` is empty exactly when every character of `s` is one `trim` removes. */
  lemma TrimEmpty(s: string)
    ensures Trim(s) == [] <==> forall k :: 0 <= k < |s| ==> IsSpace(s[k])
  {
    var t := TrimStart(s);
    if t != [] {
      assert !IsSpace(t[0]);
    }
  }

  /** A string that neither starts nor ends with a space is its own trim. */
  lemma TrimUnchanged(s: string)
    requires s != [] && !IsSpace(s[0]) && !IsSpace(s[|s| - 1])
    ensures Trim(s) == s
  {
  }

  /** `s.startsWith(p)` */
  predicate StartsWith(s: string, p: string)
  {
    |p| <= |s| && s[..|p|] == p
  }

  /** `s.slice(n)` for a non-negative `n`: empty when `n` is past the end. */
  function Slice(s: string, n: nat): string
  {
    if n <= |s| then s[n..] else []
  }

  /** `s.split('\n')`: the pieces between line feeds; never empty. */
  function Split(s: string): (pieces: seq<string>)
    ensures |pieces| >= 1
  {
    if s == [] then [[]]
    else if s[0] == '\n' then [[]] + Split(s[1..])
    else
      var rest := Split(s[1..]);
      [[s[0]] + rest[0]] + rest[1..]
  }

  /** The lines `processBuffer` dispatches: every piece but the last. */
  function CompleteLines(s: string): seq<string>
  {
    var pieces := Split(s);
    pieces[..|pieces| - 1]
  }

  /** The piece `processBuffer` keeps as the new buffer: the last one. */
  function Fragment(s: string): string
  {
    var pieces := Split(s);
    pieces[|pieces| - 1]
  }

  /** Each line followed by its line feed, all concatenated. */
  function Terminated(lines: seq<string>): string
  {
    if lines == [] then [] else Terminated(lines[..|lines| - 1]) + lines[|lines| - 1] + "\n"
  }

  /** Strings concatenated in order (`chunk` after `chunk` appended to a buffer). */
  function Concat(parts: seq<string>): string
  {
    if parts == [] then [] else Concat(parts[..|parts| - 1]) + parts[|parts| - 1]
  }

  lemma {:induction false} TerminatedAppend(a: seq<string>, b: seq<string>)
    ensures Terminated(a + b) == Terminated(a) + Terminated(b)
    decreases |b|
  {
    if b == [] {
      assert a + b == a;
    } else {
      var n := |b| - 1;
      assert (a + b)[..|a + b| - 1] == a + b[..n];
      TerminatedAppend(a, b[..n]);
    }
  }

  lemma TerminatedCons(line: string, rest: seq<string>)
    ensures Terminated([line] + rest) == line + "\n" + Terminated(rest)
  {
    TerminatedAppend([line], rest);
    assert [line][..0] == [];
  }

  /** One step of `Split`, stated on a character put in front of a string. */
  lemma SplitCons(c: char, s: string)
    ensures Split([c] + s) ==
      if c == '\n' then [[]] + Split(s) else [[c] + Split(s)[0]] + Split(s)[1..]
  {
    assert ([c] + s)[0] == c && ([c] + s)[1..] == s;
  }

  /** The pieces of `x + d` as `SplitAppend` states them, from the pieces of `x` and of `d`. */
  function Glued(p: seq<string>, q: seq<string>): seq<string>
    requires |p| >= 1 && |q| >= 1
  {
    p[..|p| - 1] + [p[|p| - 1] + q[0]] + q[1..]
  }

  /** `Glued` commutes with putting one more piece in front. */
  lemma GluedLineFeed(p': seq<string>, q: seq<string>)
    requires |p'| >= 1 && |q| >= 1
    ensures [[]] + Glued(p', q) == Glued([[]] + p', q)
  {
    var p := [[]] + p';
    assert p[..|p| - 1] == [[]] + p'[..|p'| - 1];
  }

  /** `Glued` commutes with putting one more character in front of the first piece. */
  lemma GluedChar(c: char, p': seq<string>, q: seq<string>)
    requires |p'| >= 1 && |q| >= 1
    ensures var r := Glued(p', q); [[c] + r[0]] + r[1..] == Glued([[c] + p'[0]] + p'[1..], q)
  {
    var r, p := Glued(p', q), [[c] + p'[0]] + p'[1..];
    if |p'| == 1 {
      assert r == [p'[0] + q[0]] + q[1..];
      assert [c] + (p'[0] + q[0]) == ([c] + p'[0]) + q[0];
    } else {
      var n' := |p'|;
      var mid, last, tail := p'[1..n' - 1], p'[n' - 1] + q[0], q[1..];
      assert p'[..n' - 1] == [p'[0]] + mid;
      assert r[0] == p'[0];
      assert r[1..] == mid + [last] + tail;
      assert p[..|p| - 1] == [[c] + p'[0]] + mid;
    }
  }

  /**
   * Splitting a concatenation: the last piece of `x` is glued to the first
   * piece of `d`, all other pieces are kept as they are.
   */
  lemma {:induction false} SplitAppend(x: string, d: string)
    ensures Split(x + d) == Glued(Split(x), Split(d))
    decreases |x|
  {
    var q := Split(d);
    if x == [] {
      assert x + d == d;
      assert [] + q[0] == q[0];
      assert Glued(Split(x), q) == [q[0]] + q[1..] == q;
    } else {
      var x', c := x[1..], x[0];
      assert x == [c] + x';
      assert x + d == [c] + (x' + d);
      SplitAppend(x', d);
      SplitCons(c, x');
      SplitCons(c, x' + d);
      if c == '\n' {
        GluedLineFeed(Split(x'), q);
      } else {
        GluedChar(c, Split(x'), q);
      }
    }
  }

  /** A string without line feeds is a single piece. */
  lemma {:induction false} SplitNoNewline(w: string)
    requires '\n' !in w
    ensures Split(w) == [w]
    decreases |w|
  {
    if w != [] {
      assert w == [w[0]] + w[1..];
      assert '\n' !in w[1..];
      SplitNoNewline(w[1..]);
      SplitCons(w[0], w[1..]);
    }
  }

  /**
   * What `processBuffer` leaves behind: the new buffer holds no line feed, no
   * dispatched line holds one, and the dispatched lines, each with its line
   * feed, followed by the new buffer, are exactly the old buffer.
   */
  lemma LinesReassemble(s: string)
    ensures '\n' !in Fragment(s)
    ensures forall k :: 0 <= k < |CompleteLines(s)| ==> '\n' !in CompleteLines(s)[k]
    ensures Terminated(CompleteLines(s)) + Fragment(s) == s
  {
    PiecesClean(s);
    PiecesRejoin(s);
  }

  /** No piece of a split holds a line feed. */
  lemma {:induction false} PiecesClean(s: string)
    ensures forall k :: 0 <= k < |Split(s)| ==> '\n' !in Split(s)[k]
    decreases |s|
  {
    if s != [] {
      var c, t := s[0], s[1..];
      var p, r := Split(s), Split(t);
      PiecesClean(t);
      forall k | 0 <= k < |p|
        ensures '\n' !in p[k]
      {
        if c == '\n' {
          assert p == [[]] + r;
        } else {
          assert p == [[c] + r[0]] + r[1..];
          if k == 0 {
            assert '\n' !in r[0];
          } else {
            assert p[k] == r[k];
          }
        }
      }
    }
  }

  /** The dispatched lines, each with its line feed, and then the kept fragment, spell the split string. */
  lemma {:induction false} PiecesRejoin(s: string)
    ensures Terminated(CompleteLines(s)) + Fragment(s) == s
    decreases |s|
  {
    if s != [] {
      var c, t := s[0], s[1..];
      PiecesRejoin(t);
      assert s == [c] + t;
      if c == '\n' {
        RejoinLineFeed(t);
      } else if |Split(t)| == 1 {
        RejoinIntoFragment(c, t);
      } else {
        RejoinIntoLine(c, t);
      }
    }
  }

  /** A leading line feed adds one empty dispatched line. */
  lemma RejoinLineFeed(t: string)
    requires Terminated(CompleteLines(t)) + Fragment(t) == t
    ensures Terminated(CompleteLines("\n" + t)) + Fragment("\n" + t) == "\n" + t
  {
    var p := Split(t);
    SplitCons('\n', t);
    assert CompleteLines("\n" + t) == [[]] + CompleteLines(t);
    assert Fragment("\n" + t) == Fragment(t);
    TerminatedCons([], CompleteLines(t));
  }

  /** A character before a string without line feeds starts the kept fragment. */
  lemma RejoinIntoFragment(c: char, t: string)
    requires c != '\n' && |Split(t)| == 1
    requires Terminated(CompleteLines(t)) + Fragment(t) == t
    ensures Terminated(CompleteLines([c] + t)) + Fragment([c] + t) == [c] + t
  {
    SplitCons(c, t);
    assert Split([c] + t) == [[c] + Split(t)[0]];
  }

  /** A character before a line feed starts the first dispatched line. */
  lemma RejoinIntoLine(c: char, t: string)
    requires c != '\n' && |Split(t)| > 1
    requires Terminated(CompleteLines(t)) + Fragment(t) == t
    ensures Terminated(CompleteLines([c] + t)) + Fragment([c] + t) == [c] + t
  {
    var p, c' := Split(t), CompleteLines(t);
    SplitCons(c, t);
    assert Split([c] + t) == [[c] + p[0]] + p[1..];
    assert CompleteLines([c] + t) == [[c] + c'[0]] + c'[1..];
    assert Fragment([c] + t) == Fragment(t);
    IntoLineJoins(c, c', Fragment(t));
  }

  /** Prefixing the first line of `lines` with `x` prefixes their terminated text with `x`. */
  lemma IntoLineJoins(x: char, lines: seq<string>, f: string)
    requires |lines| >= 1
    ensures Terminated([[x] + lines[0]] + lines[1..]) + f == [x] + (Terminated(lines) + f)
  {
    var a, r := lines[0], Terminated(lines[1..]);
    assert Terminated([[x] + a] + lines[1..]) == [x] + a + "\n" + r by {
      TerminatedCons([x] + a, lines[1..]);
    }
    assert Terminated(lines) == a + "\n" + r by {
      assert lines == [a] + lines[1..];
      TerminatedCons(a, lines[1..]);
    }
    Regroup([x], a, "\n", r, f);
  }

  /**
   * Regrouping a concatenation, as a lemma of its own so that the proof that
   * uses it does not have to find the regrouping itself, which is costly
   * for the solver there.
   */
  lemma Regroup(w: string, a: string, b: string, c: string, d: string)
    ensures w + a + b + c + d == w + (a + b + c + d)
  {
  }

  /**
   * Feeding one more chunk: the lines a buffer holding all of `prefix + chunk`
   * would dispatch are the lines of `prefix`, then those of the kept fragment
   * of `prefix` followed by `chunk`; the kept fragments agree as well.
   */
  lemma FeedStep(prefix: string, chunk: string)
    ensures CompleteLines(prefix + chunk) == CompleteLines(prefix) + CompleteLines(Fragment(prefix) + chunk)
    ensures Fragment(prefix + chunk) == Fragment(Fragment(prefix) + chunk)
  {
    var init, s := CompleteLines(prefix), Split(Fragment(prefix) + chunk);
    SplitAfterPrefix(prefix, chunk);
    assert (init + s)[..|init + s| - 1] == init + s[..|s| - 1];
  }

  /** The pieces of `prefix + chunk`: the complete lines of `prefix`, then the pieces of its fragment followed by `chunk`. */
  lemma SplitAfterPrefix(prefix: string, chunk: string)
    ensures Split(prefix + chunk) == CompleteLines(prefix) + Split(Fragment(prefix) + chunk)
  {
    var p, q, f := Split(prefix), Split(chunk), Fragment(prefix);
    assert Split(prefix + chunk) == p[..|p| - 1] + [f + q[0]] + q[1..] by { SplitAppend(prefix, chunk); }
    assert Split(f) == [f] by {
      LinesReassemble(prefix);
      SplitNoNewline(f);
    }
    assert Split(f + chunk) == [f + q[0]] + q[1..] by { SplitAppend(f, chunk); }
  }

  /** A line without line feeds, then two line feeds: that line and a blank one, nothing left over. */
  lemma LineThenBlank(d: string)
    requires '\n' !in d
    ensures CompleteLines(d + "\n\n") == [d, []]
    ensures Fragment(d + "\n\n") == []
  {
    SplitNoNewline(d);
    SplitAppend(d, "\n\n");
    SplitCons('\n', "\n");
    SplitCons('\n', []);
    assert "\n\n" == ['\n'] + "\n" && "\n" == ['\n'] + [];
    assert Split("\n\n") == [[], [], []];
    assert d + [] == d;
    assert Split(d + "\n\n") == [d, [], []];
  }
}
