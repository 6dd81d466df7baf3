/** The text handling of the migration runner (scripts/deploy_to_snowflake.py,
    lines 26-32): a script file is read in text mode, cut at every `;`, each
    piece is stripped of surrounding whitespace, and the non-empty pieces are
    the statements that run, in file order.

    `Split`, `Strip` and `TranslateNewlines` follow Python's `str.split(sep)`,
    `str.strip()` and the universal-newlines translation of `open(f, 'r')`. */
module SqlText {

  // ---------------------------------------------------------------------------
  // str.split(sep)

  /** The pieces between separators; `n` separators give `n + 1` pieces, and
      empty pieces are kept, as in Python. */
  function Split(s: string, sep: char): (pieces: seq<string>)
    ensures |pieces| >= 1
    ensures forall k :: 0 <= k < |pieces| ==> sep !in pieces[k]
  {
    if s == [] then [[]]
    else
      var rest := Split(s[1..], sep);
      if s[0] == sep then [[]] + rest
      else [[s[0]] + rest[0]] + rest[1..]
  }

  /** `sep.join(pieces)`. */
  function Join(pieces: seq<string>, sep: char): string {
    if pieces == [] then []
    else if |pieces| == 1 then pieces[0]
    else pieces[0] + [sep] + Join(pieces[1..], sep)
  }

  /** Joining the pieces gives back the text. */
  lemma {:induction false} JoinSplit(s: string, sep: char)
    ensures Join(Split(s, sep), sep) == s
  {
    if s != [] {
      var rest := Split(s[1..], sep);
      JoinSplit(s[1..], sep);
      if s[0] == sep {
        assert ([[]] + rest)[1..] == rest;
        assert s == [] + [sep] + s[1..];
      } else if |rest| == 1 {
        assert s == [s[0]] + s[1..];
      } else {
        var r := [[s[0]] + rest[0]] + rest[1..];
        assert r[1..] == rest[1..];
        assert Join(rest, sep) == rest[0] + [sep] + Join(rest[1..], sep);
        assert s == [s[0]] + s[1..];
      }
    }
  }

  /** Splitting a join of separator-free pieces gives back the pieces, so
      `Split` and `Join` are inverse bijections. */
  lemma {:induction false} SplitJoin(pieces: seq<string>, sep: char)
    requires |pieces| >= 1
    requires forall k :: 0 <= k < |pieces| ==> sep !in pieces[k]
    ensures Split(Join(pieces, sep), sep) == pieces
  {
    if |pieces| == 1 {
      SplitPiece(pieces[0], sep);
    } else {
      var tail := pieces[1..];
      assert forall k :: 0 <= k < |tail| ==> sep !in tail[k] by {
        forall k | 0 <= k < |tail| ensures sep !in tail[k] {
          assert tail[k] == pieces[k + 1];
        }
      }
      SplitJoin(tail, sep);
      SplitAfterPiece(pieces[0], Join(tail, sep), sep);
      assert pieces == [pieces[0]] + tail;
    }
  }

  /** Text without a separator is a single piece. */
  lemma {:induction false} SplitPiece(p: string, sep: char)
    requires sep !in p
    ensures Split(p, sep) == [p]
  {
    if p != [] {
      assert p == [p[0]] + p[1..];
      SplitPiece(p[1..], sep);
      assert p == [p[0]] + p[1..];
    }
  }

  /** A separator-free prefix followed by a separator becomes the first piece. */
  lemma {:induction false} SplitAfterPiece(p: string, t: string, sep: char)
    requires sep !in p
    ensures Split(p + [sep] + t, sep) == [p] + Split(t, sep)
  {
    if p == [] {
      assert [] + [sep] + t == [sep] + t;
      assert ([sep] + t)[1..] == t;
    } else {
      assert p == [p[0]] + p[1..];
      SplitAfterPiece(p[1..], t, sep);
      var s := p + [sep] + t;
      assert s[0] == p[0];
      assert s[1..] == p[1..] + [sep] + t;
      assert p == [p[0]] + p[1..];
    }
  }

  /** Joining a concatenation of piece lists puts one separator between them. */
  lemma {:induction false} JoinAppend(a: seq<string>, b: seq<string>, sep: char)
    requires |a| >= 1 && |b| >= 1
    ensures Join(a + b, sep) == Join(a, sep) + [sep] + Join(b, sep)
  {
    if |a| == 1 {
      assert (a + b)[1..] == b;
    } else {
      JoinAppend(a[1..], b, sep);
      assert (a + b)[1..] == a[1..] + b;
    }
  }

  /** Text spliced at a separator splits into the pieces of both sides. */
  lemma SplitAppend(a: string, b: string, sep: char)
    ensures Split(a + [sep] + b, sep) == Split(a, sep) + Split(b, sep)
  {
    var pa, pb := Split(a, sep), Split(b, sep);
    JoinSplit(a, sep);
    JoinSplit(b, sep);
    JoinAppend(pa, pb, sep);
    SplitJoin(pa + pb, sep);
  }

  // ---------------------------------------------------------------------------
  // str.strip()

  /** The characters `str.isspace()` accepts, which `str.strip()` removes. */
  predicate IsSpace(c: char) {
    || c == ' ' || ('\t' <= c <= '\r') || ('\U{1c}' <= c <= '\U{1f}')
    || c == '\U{85}' || c == '\U{a0}' || c == '\U{1680}'
    || ('\U{2000}' <= c <= '\U{200a}') || c == '\U{2028}' || c == '\U{2029}'
    || c == '\U{202f}' || c == '\U{205f}' || c == '\U{3000}'
  }

  function StripStart(s: string): (r: string)
    ensures |r| <= |s|
    ensures r == [] || !IsSpace(r[0])
  {
    if s != [] && IsSpace(s[0]) then StripStart(s[1..]) else s
  }

  function StripEnd(s: string): (r: string)
    ensures |r| <= |s|
    ensures r == [] || (!IsSpace(r[|r| - 1]) && r[0] == s[0])
  {
    if s != [] && IsSpace(s[|s| - 1]) then StripEnd(s[..|s| - 1]) else s
  }

  /** `StripStart` removes a run of leading whitespace and keeps the rest. */
  lemma {:induction false} StripStartDrops(s: string)
    ensures var r := StripStart(s);
      r == s[|s| - |r|..] && forall k :: 0 <= k < |s| - |r| ==> IsSpace(s[k])
  {
    if s != [] && IsSpace(s[0]) {
      StripStartDrops(s[1..]);
      var r := StripStart(s);
      assert forall k :: 1 <= k < |s| - |r| ==> s[k] == s[1..][k - 1];
    }
  }

  /** `StripEnd` removes a run of trailing whitespace and keeps the rest. */
  lemma {:induction false} StripEndKeeps(s: string)
    ensures var r := StripEnd(s);
      r == s[..|r|] && forall k :: |r| <= k < |s| ==> IsSpace(s[k])
  {
    if s != [] && IsSpace(s[|s| - 1]) {
      StripEndKeeps(s[..|s| - 1]);
      var r := StripEnd(s);
      assert forall k :: |r| <= k < |s| - 1 ==> s[k] == s[..|s| - 1][k];
    }
  }

  /** A stripped text has no whitespace at either end. */
  predicate Stripped(s: string) {
    s == [] || (!IsSpace(s[0]) && !IsSpace(s[|s| - 1]))
  }

  /** `s.strip()`. */
  function Strip(s: string): (r: string)
    ensures Stripped(r)
  {
    StripEnd(StripStart(s))
  }

  /** `Strip` keeps a slice of its argument and removes only whitespace around it. */
  lemma StripIsSlice(s: string)
    ensures exists i, j :: (0 <= i <= j <= |s| && Strip(s) == s[i..j]
      && (forall k :: 0 <= k < i ==> IsSpace(s[k]))
      && (forall k :: j <= k < |s| ==> IsSpace(s[k])))
  {
    var a := StripStart(s);
    var r := StripEnd(a);
    StripStartDrops(s);
    StripEndKeeps(a);
    var i := |s| - |a|;
    var j := i + |r|;
    assert r == s[i..j] by {
      assert a == s[i..] && r == a[..|r|];
    }
    assert forall k :: 0 <= k < i ==> IsSpace(s[k]);
    assert forall k :: j <= k < |s| ==> IsSpace(s[k]) by {
      forall k | j <= k < |s| ensures IsSpace(s[k]) {
        assert s[k] == a[k - i];
      }
    }
    assert Strip(s) == r;
  }

  /** Stripping only removes characters. */
  lemma StripKeepsOut(s: string, c: char)
    requires c !in s
    ensures c !in Strip(s)
  {
    var a := StripStart(s);
    StripStartDrops(s);
    var r := StripEnd(a);
    StripEndKeeps(a);
    forall k | 0 <= k < |r| ensures r[k] != c {
      var i := |s| - |a| + k;
      assert r[k] == a[k] == s[i] && s[i] in s;
    }
  }

  /** Text without whitespace at its ends is left as it is; in particular
      `Strip` is idempotent. */
  lemma StripKeepsStripped(s: string)
    requires Stripped(s)
    ensures Strip(s) == s
  {
    assert StripStart(s) == s;
  }

  lemma StripIdempotent(s: string)
    ensures Strip(Strip(s)) == Strip(s)
  {
    StripKeepsStripped(Strip(s));
  }

  // ---------------------------------------------------------------------------
  // Statements of a script

  /** A statement as the runner submits it: not empty, no `;`, stripped. */
  predicate IsStatement(s: string) {
    s != [] && ';' !in s && Stripped(s)
  }

  /** Each piece stripped (line 30). */
  function StripAll(pieces: seq<string>): (r: seq<string>)
    ensures |r| == |pieces|
    ensures forall k :: 0 <= k < |r| ==> r[k] == Strip(pieces[k])
  {
    if pieces == [] then [] else [Strip(pieces[0])] + StripAll(pieces[1..])
  }

  /** The texts that are not empty, in order (`if stmt:`, line 31). */
  function NonEmpty(xs: seq<string>): (ys: seq<string>)
    ensures |ys| <= |xs|
    ensures forall k :: 0 <= k < |ys| ==> ys[k] != [] && ys[k] in xs
  {
    if xs == [] then []
    else if xs[0] != [] then [xs[0]] + NonEmpty(xs[1..])
    else NonEmpty(xs[1..])
  }

  /** The statements of a script text: split at `;`, strip, drop the empty ones. */
  function Statements(text: string): (stmts: seq<string>)
    ensures forall k :: 0 <= k < |stmts| ==> IsStatement(stmts[k])
  {
    var pieces := Split(text, ';');
    var stmts := NonEmpty(StripAll(pieces));
    assert forall k :: 0 <= k < |stmts| ==> IsStatement(stmts[k]) by {
      forall k | 0 <= k < |stmts| ensures IsStatement(stmts[k]) {
        var i :| 0 <= i < |pieces| && stmts[k] == StripAll(pieces)[i];
        StripKeepsOut(pieces[i], ';');
      }
    }
    stmts
  }

  lemma StripAllAppend(a: seq<string>, b: seq<string>)
    ensures StripAll(a + b) == StripAll(a) + StripAll(b)
  {
  }

  lemma {:induction false} NonEmptyAppend(a: seq<string>, b: seq<string>)
    ensures NonEmpty(a + b) == NonEmpty(a) + NonEmpty(b)
  {
    if a == [] {
      assert a + b == b;
    } else {
      assert (a + b)[0] == a[0];
      assert (a + b)[1..] == a[1..] + b;
      NonEmptyAppend(a[1..], b);
    }
  }

  /** Statements keep file order: the statements of a text cut at a `;` are
      those of the part before followed by those of the part after. */
  lemma StatementsInFileOrder(a: string, b: string)
    ensures Statements(a + [';'] + b) == Statements(a) + Statements(b)
  {
    SplitAppend(a, b, ';');
    StripAllAppend(Split(a, ';'), Split(b, ';'));
    NonEmptyAppend(StripAll(Split(a, ';')), StripAll(Split(b, ';')));
  }

  /** A text without `;` is one statement, or none when it is blank. */
  lemma StatementsOfOnePiece(text: string)
    requires ';' !in text
    ensures Statements(text) == if Strip(text) == [] then [] else [Strip(text)]
  {
    SplitPiece(text, ';');
    assert [text][1..] == [];
  }

  // ---------------------------------------------------------------------------
  // open(path, 'r').read()

  /** Text mode turns "\r\n" and a lone "\r" into "\n". */
  function TranslateNewlines(s: string): (r: string)
    ensures '\r' !in r
    ensures |r| <= |s|
  {
    if s == [] then []
    else if s[0] == '\r' && |s| > 1 && s[1] == '\n' then ['\n'] + TranslateNewlines(s[2..])
    else if s[0] == '\r' then ['\n'] + TranslateNewlines(s[1..])
    else [s[0]] + TranslateNewlines(s[1..])
  }

  /** Text that has no carriage return is read unchanged. */
  lemma {:induction false} TranslateNewlinesKeeps(s: string)
    requires '\r' !in s
    ensures TranslateNewlines(s) == s
  {
    if s != [] {
      assert s == [s[0]] + s[1..];
      TranslateNewlinesKeeps(s[1..]);
    }
  }

  /** The text with every line-break character removed. */
  function LineText(s: string): (t: string)
    ensures '\r' !in t && '\n' !in t
    ensures |t| <= |s|
  {
    if s == [] then []
    else if s[0] == '\r' || s[0] == '\n' then LineText(s[1..])
    else [s[0]] + LineText(s[1..])
  }

  /** Reading changes only line breaks: apart from them the text is the same,
      character for character. */
  lemma {:induction false} TranslateNewlinesKeepsText(s: string)
    ensures LineText(TranslateNewlines(s)) == LineText(s)
  {
    if s == [] {
    } else if s[0] == '\r' && |s| > 1 && s[1] == '\n' {
      TranslateNewlinesKeepsText(s[2..]);
      assert LineText(s) == LineText(s[1..]) == LineText(s[2..]);
    } else {
      TranslateNewlinesKeepsText(s[1..]);
    }
  }

  /** Reading an already translated text changes nothing. */
  lemma TranslateNewlinesIdempotent(s: string)
    ensures TranslateNewlines(TranslateNewlines(s)) == TranslateNewlines(s)
  {
    TranslateNewlinesKeeps(TranslateNewlines(s));
  }
}
