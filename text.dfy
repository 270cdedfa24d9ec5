/**
 * The handful of Python `str` operations the diagnosis pipeline uses to read
 * probe output, written over `seq<char>`: `c.isspace()`, `s.strip()`,
 * `sub in s`, `s.split(sep)` with a one-character separator, and `s.split()`
 * with no argument.  Each comes with properties stated independently of the
 * recursion that computes it.  They pin `strip`, `in` and `split(sep)` down
 * completely.  For `split()` they fix as much as the parser uses: the
 * concatenation of the words, when the list is empty, and the last word.
 */
module Text {

  /** Python's `str.isspace()` for a single character (the Unicode whitespace set). */
  predicate IsSpace(c: char) {
    c == ' ' || ('\t' <= c <= '\r') || ('\U{1C}' <= c <= '\U{1F}')
    || c == '\U{85}' || c == '\U{A0}' || c == '\U{1680}'
    || ('\U{2000}' <= c <= '\U{200A}') || c == '\U{2028}' || c == '\U{2029}'
    || c == '\U{202F}' || c == '\U{205F}' || c == '\U{3000}'
  }

  /** Every character of `s` is whitespace (the empty string included). */
  predicate IsBlank(s: string) {
    forall i :: 0 <= i < |s| ==> IsSpace(s[i])
  }

  // ---------------------------------------------------------------------------
  // strip()

  /** `s.lstrip()`: the suffix left after dropping leading whitespace. */
  function TrimStart(s: string): (t: string)
    ensures |t| <= |s| && t == s[|s| - |t|..]
    ensures IsBlank(s[..|s| - |t|])
    ensures t == [] || !IsSpace(t[0])
    decreases |s|
  {
    if s != [] && IsSpace(s[0]) then
      var t := TrimStart(s[1..]);
      assert s[..|s| - |t|] == [s[0]] + s[1..][..|s| - 1 - |t|];
      BlankCons(s[0], s[1..][..|s| - 1 - |t|]);
      t
    else s
  }

  /** A string is blank exactly when its first character is whitespace and the rest is blank. */
  lemma BlankCons(c: char, s: string)
    ensures IsBlank([c] + s) <==> IsSpace(c) && IsBlank(s)
  {
    var t := [c] + s;
    assert t[0] == c;
    assert forall i :: 0 <= i < |s| ==> s[i] == t[i + 1];
    assert forall i :: 0 < i < |t| ==> t[i] == s[i - 1];
  }


  /** `s.rstrip()`: the prefix left after dropping trailing whitespace. */
  function TrimEnd(s: string): (t: string)
    ensures |t| <= |s| && t == s[..|t|]
    ensures IsBlank(s[|t|..])
    ensures t == [] || !IsSpace(t[|t| - 1])
    decreases |s|
  {
    if s != [] && IsSpace(s[|s| - 1]) then
      var t := TrimEnd(s[..|s| - 1]);
      assert s[|t|..] == s[..|s| - 1][|t|..] + [s[|s| - 1]];
      t
    else s
  }

  /** `s.strip()`: empty exactly when `s` holds nothing but whitespace. */
  function Strip(s: string): (t: string)
    ensures t == [] <==> IsBlank(s)
  {
    var u := TrimStart(s);
    var t := TrimEnd(u);
    assert s == s[..|s| - |u|] + u;
    if t == [] then
      assert IsBlank(u) by { assert u[|t|..] == u; }
      assert s == s[..|s| - |u|];
      t
    else
      assert u != [] && !IsSpace(u[0]) by { assert u[..|t|] == t; }
      assert s[|s| - |u|] == u[0];
      t
  }

  // ---------------------------------------------------------------------------
  // sub in s

  /** `sub` occurs in `s` starting at index `i`. */
  predicate OccursAt(s: string, sub: string, i: int) {
    0 <= i && i + |sub| <= |s| && s[i..i + |sub|] == sub
  }

  /** Python's `sub in s`. */
  predicate Contains(s: string, sub: string)
    decreases |s|
  {
    |sub| <= |s| && (s[..|sub|] == sub || Contains(s[1..], sub))
  }

  /** `Contains` holds exactly when `sub` occurs at some index of `s`. */
  lemma {:induction false} ContainsIffOccurs(s: string, sub: string)
    ensures Contains(s, sub) <==> exists i :: OccursAt(s, sub, i)
    decreases |s|
  {
    if |sub| <= |s| {
      if s[..|sub|] == sub {
        assert OccursAt(s, sub, 0);
        return;
      }
      ContainsIffOccurs(s[1..], sub);
      assert s[0..|sub|] == s[..|sub|];
      forall i | OccursAt(s, sub, i) && i > 0 ensures OccursAt(s[1..], sub, i - 1) {
        assert s[1..][i - 1..i - 1 + |sub|] == s[i..i + |sub|];
      }
      forall i | OccursAt(s[1..], sub, i) ensures OccursAt(s, sub, i + 1) {
        assert s[i + 1..i + 1 + |sub|] == s[1..][i..i + |sub|];
      }
    }
  }

  /** `sub in s` fails when `s` lacks some character of `sub`. */
  lemma {:induction false} MissingCharNotContained(s: string, sub: string, c: char)
    requires c in sub && c !in s
    ensures !Contains(s, sub)
    decreases |s|
  {
    if |sub| <= |s| {
      assert forall k :: 0 <= k < |sub| ==> s[..|sub|][k] == s[k];
      assert c !in s[..|sub|];
      MissingCharNotContained(s[1..], sub, c);
    }
  }

  // ---------------------------------------------------------------------------
  // s.split(sep)

  /**
   * Python's `s.split(sep)` for a one-character separator: the pieces between
   * occurrences of `sep`, so there is always at least one piece.
   */
  function Split(s: string, sep: char): (parts: seq<string>)
    ensures |parts| >= 1
    decreases |s|
  {
    if s == [] then [""]
    else
      var rest := Split(s[1..], sep);
      if s[0] == sep then [""] + rest else [[s[0]] + rest[0]] + rest[1..]
  }

  /**
   * `piece` sits in `s` at `start` as one whole piece between separators: it
   * holds no `sep`, and is bounded on each side by `sep` or by an end of `s`.
   */
  predicate PieceAt(s: string, sep: char, start: int, piece: string) {
    && 0 <= start && start + |piece| <= |s|
    && s[start..start + |piece|] == piece
    && sep !in piece
    && (start == 0 || s[start - 1] == sep)
    && (start + |piece| == |s| || s[start + |piece|] == sep)
  }

  /**
   * The first piece is the text before the first `sep` (all of `s` when there
   * is none), and the remaining pieces are those of the text after that `sep`.
   */
  lemma SplitHead(s: string, sep: char)
    ensures PieceAt(s, sep, 0, Split(s, sep)[0])
    ensures |Split(s, sep)| > 1 <==> sep in s
    ensures |Split(s, sep)| > 1 ==> |Split(s, sep)[0]| < |s|
    ensures |Split(s, sep)| > 1 ==> Split(s, sep)[1..] == Split(s[|Split(s, sep)[0]| + 1..], sep)
  {
    SplitFirstPiece(s, sep);
    SplitManyIffSep(s, sep);
    if |Split(s, sep)| > 1 {
      assert Split(s, sep)[0] != s;
      SplitRestAfterFirst(s, sep);
    }
  }

  /** The first piece of `s.split(sep)` runs from the start of `s` to the first `sep` or the end. */
  lemma {:induction false} SplitFirstPiece(s: string, sep: char)
    ensures PieceAt(s, sep, 0, Split(s, sep)[0])
    decreases |s|
  {
    if s != [] && s[0] != sep {
      var rest := Split(s[1..], sep);
      SplitFirstPiece(s[1..], sep);
      assert Split(s, sep)[0] == [s[0]] + rest[0];
      ConsPiece(s, sep, rest[0]);
    }
  }

  /** A non-`sep` character in front of the first piece of `s[1..]` extends it to the first piece of `s`. */
  lemma ConsPiece(s: string, sep: char, q: string)
    requires s != [] && s[0] != sep && PieceAt(s[1..], sep, 0, q)
    ensures PieceAt(s, sep, 0, [s[0]] + q)
  {
    var p := [s[0]] + q;
    assert s[..|p|] == [s[0]] + s[1..][..|q|];
    assert sep !in p by {
      assert p[0] != sep && p[1..] == q;
    }
    if |p| < |s| {
      assert s[|p|] == s[1..][|q|];
    }
  }

  /** `s.split(sep)` has more than one piece exactly when `sep` occurs in `s`. */
  lemma {:induction false} SplitManyIffSep(s: string, sep: char)
    ensures |Split(s, sep)| > 1 <==> sep in s
    decreases |s|
  {
    if s != [] && s[0] != sep {
      SplitManyIffSep(s[1..], sep);
      assert sep in s <==> sep in s[1..] by {
        assert s == [s[0]] + s[1..];
      }
    }
  }

  /** After the first piece and its `sep`, the remaining pieces are the split of the rest of `s`. */
  lemma {:induction false} SplitRestAfterFirst(s: string, sep: char)
    requires |Split(s, sep)| > 1
    ensures |Split(s, sep)[0]| < |s|
    ensures Split(s, sep)[1..] == Split(s[|Split(s, sep)[0]| + 1..], sep)
    decreases |s|
  {
    if s[0] != sep {
      var rest := Split(s[1..], sep);
      assert Split(s, sep) == [[s[0]] + rest[0]] + rest[1..];
      SplitRestAfterFirst(s[1..], sep);
      assert s[|rest[0]| + 2..] == s[1..][|rest[0]| + 1..];
    }
  }

  /**
   * `s.split(sep)[0]` is the text before the first `sep`, and, when `sep`
   * occurs, `s.split(sep)[1]` is the text between the first and the second.
   */
  lemma SplitFirstTwo(s: string, sep: char)
    ensures PieceAt(s, sep, 0, Split(s, sep)[0])
    ensures |Split(s, sep)| > 1 <==> sep in s
    ensures sep in s ==> PieceAt(s, sep, |Split(s, sep)[0]| + 1, Split(s, sep)[1])
  {
    SplitHead(s, sep);
    if sep in s {
      var p := Split(s, sep)[0];
      var t := s[|p| + 1..];
      SplitHead(t, sep);
      assert Split(s, sep)[1] == Split(t, sep)[0];
      PieceAfterFirst(s, sep, p, Split(t, sep)[0]);
    }
  }

  /** A whole piece at the start of the text after the first piece is the second piece of `s`. */
  lemma PieceAfterFirst(s: string, sep: char, p: string, q: string)
    requires PieceAt(s, sep, 0, p) && |p| < |s|
    requires PieceAt(s[|p| + 1..], sep, 0, q)
    ensures PieceAt(s, sep, |p| + 1, q)
  {
    var t := s[|p| + 1..];
    assert s[|p| + 1..|p| + 1 + |q|] == t[..|q|];
    assert |p| + 1 + |q| < |s| ==> s[|p| + 1 + |q|] == t[|q|];
  }

  /** Text without the separator is a single piece. */
  lemma {:induction false} SplitNoSep(s: string, sep: char)
    requires sep !in s
    ensures Split(s, sep) == [s]
    decreases |s|
  {
    if s != [] {
      SplitNoSep(s[1..], sep);
      assert [s[0]] + s[1..] == s;
    }
  }

  /** Text with its first separator after `a` splits into `a` and the pieces of what follows. */
  lemma {:induction false} SplitAt(a: string, sep: char, b: string)
    requires sep !in a
    ensures Split(a + [sep] + b, sep) == [a] + Split(b, sep)
    decreases |a|
  {
    if a == [] {
      assert a + [sep] + b == [sep] + b;
      assert ([sep] + b)[1..] == b;
    } else {
      SplitAt(a[1..], sep, b);
      assert (a + [sep] + b)[1..] == a[1..] + [sep] + b;
      assert [a[0]] + a[1..] == a;
    }
  }

  /** Python's `sep.join(parts)` for a one-character separator. */
  function Join(parts: seq<string>, sep: char): string
    decreases |parts|
  {
    if |parts| == 0 then ""
    else if |parts| == 1 then parts[0]
    else parts[0] + [sep] + Join(parts[1..], sep)
  }

  /** Joining the pieces back with the separator restores the string. */
  lemma {:induction false} JoinSplit(s: string, sep: char)
    ensures Join(Split(s, sep), sep) == s
    decreases |s|
  {
    if s != [] {
      var rest := Split(s[1..], sep);
      JoinSplit(s[1..], sep);
      if s[0] == sep {
        assert ([""] + rest)[1..] == rest;
      } else if |rest| == 1 {
        assert Join(rest, sep) == rest[0];
      } else {
        var parts := [[s[0]] + rest[0]] + rest[1..];
        assert parts[1..] == rest[1..];
        assert Join(rest, sep) == rest[0] + [sep] + Join(rest[1..], sep);
      }
    }
  }

  /** No piece contains the separator. */
  lemma {:induction false} SplitPiecesAvoidSep(s: string, sep: char)
    ensures forall k :: 0 <= k < |Split(s, sep)| ==> sep !in Split(s, sep)[k]
    decreases |s|
  {
    if s != [] {
      SplitPiecesAvoidSep(s[1..], sep);
    }
  }

  /** There is one more piece than there are separators in `s`. */
  lemma {:induction false} SplitCount(s: string, sep: char)
    ensures |Split(s, sep)| == multiset(s)[sep] + 1
    decreases |s|
  {
    if s != [] {
      SplitCount(s[1..], sep);
      assert s == [s[0]] + s[1..];
      assert multiset(s) == multiset([s[0]]) + multiset(s[1..]);
    }
  }

  // ---------------------------------------------------------------------------
  // s.split()

  /** A word of `s.split()`: non-empty, no whitespace. */
  predicate IsWord(w: string) {
    |w| > 0 && forall i :: 0 <= i < |w| ==> !IsSpace(w[i])
  }

  /**
   * Python's `s.split()` with no argument: the maximal runs of non-whitespace
   * characters, in order.
   */
  function Words(s: string): (ws: seq<string>)
    ensures forall k :: 0 <= k < |ws| ==> IsWord(ws[k])
    ensures s != [] && !IsSpace(s[0]) ==> |ws| > 0 && |ws[0]| > 0 && ws[0][0] == s[0]
    decreases |s|
  {
    if s == [] then []
    else
      var rest := Words(s[1..]);
      if IsSpace(s[0]) then rest
      else if |s| > 1 && !IsSpace(s[1]) then [[s[0]] + rest[0]] + rest[1..]
      else [[s[0]]] + rest
  }

  /** Concatenation of a sequence of strings. */
  function Concat(ws: seq<string>): string
    decreases |ws|
  {
    if ws == [] then "" else ws[0] + Concat(ws[1..])
  }

  /** The non-whitespace characters of `s`, in order. */
  function NonSpace(s: string): string
    decreases |s|
  {
    if s == [] then "" else (if IsSpace(s[0]) then "" else [s[0]]) + NonSpace(s[1..])
  }

  /** `s.split()` loses exactly the whitespace: its words spell out the other characters. */
  lemma {:induction false} WordsSpellNonSpace(s: string)
    ensures Concat(Words(s)) == NonSpace(s)
    decreases |s|
  {
    if s != [] {
      WordsSpellNonSpace(s[1..]);
      var rest := Words(s[1..]);
      if !IsSpace(s[0]) && |s| > 1 && !IsSpace(s[1]) {
        var ws := [[s[0]] + rest[0]] + rest[1..];
        assert ws[1..] == rest[1..];
        assert Concat(rest) == rest[0] + Concat(rest[1..]);
      } else if !IsSpace(s[0]) {
        assert ([[s[0]]] + rest)[1..] == rest;
      }
    }
  }

  /** `s.split()` is empty exactly when `s` is blank. */
  lemma {:induction false} WordsEmptyIffBlank(s: string)
    ensures Words(s) == [] <==> IsBlank(s)
    decreases |s|
  {
    if s != [] {
      WordsEmptyIffBlank(s[1..]);
      if IsSpace(s[0]) {
        assert IsBlank(s) <==> IsBlank(s[1..]) by {
          if IsBlank(s[1..]) {
            forall i | 0 <= i < |s| ensures IsSpace(s[i]) {
              if i > 0 { assert s[i] == s[1..][i - 1]; }
            }
          }
        }
      }
    }
  }

  /**
   * `w` is the last word of `s`, starting at index `i`: a word preceded by
   * whitespace or the start of `s`, and followed by whitespace only.
   */
  predicate LastWordAt(s: string, i: int, w: string) {
    && IsWord(w)
    && 0 <= i && i + |w| <= |s|
    && s[i..i + |w|] == w
    && IsBlank(s[i + |w|..])
    && (i == 0 || IsSpace(s[i - 1]))
  }

  /** Where the last word of `s.split()` starts; it is 0 only for a single word at the very start. */
  lemma {:induction false} WordsLastStart(s: string) returns (i: int)
    requires Words(s) != []
    ensures LastWordAt(s, i, Words(s)[|Words(s)| - 1])
    ensures |Words(s)| > 1 ==> i > 0
    ensures |Words(s)| == 1 && !IsSpace(s[0]) ==> i == 0
    decreases |s|
  {
    var rest := Words(s[1..]);
    if IsSpace(s[0]) {
      var j := WordsLastStart(s[1..]);
      LastAfterSpace(s, j);
      i := j + 1;
    } else if |s| > 1 && !IsSpace(s[1]) {
      var j := WordsLastStart(s[1..]);
      if |rest| > 1 {
        LastOfLongerWord(s, j);
        i := j + 1;
      } else {
        OnlyLongerWord(s);
        i := 0;
      }
    } else if rest == [] {
      OnlySingleCharWord(s);
      i := 0;
    } else {
      var j := WordsLastStart(s[1..]);
      LastAfterSingleCharWord(s, j);
      i := j + 1;
    }
  }

  /** `WordsLastStart` when `s` opens with whitespace. */
  lemma LastAfterSpace(s: string, j: int)
    requires s != [] && IsSpace(s[0]) && Words(s[1..]) != []
    requires LastWordAt(s[1..], j, Words(s[1..])[|Words(s[1..])| - 1])
    ensures Words(s) == Words(s[1..])
    ensures LastWordAt(s, j + 1, Words(s)[|Words(s)| - 1])
  {
    ShiftLastWord(s, j, Words(s[1..])[|Words(s[1..])| - 1]);
  }

  /** `WordsLastStart` when the first word of `s` is longer than one character and is not the last. */
  lemma LastOfLongerWord(s: string, j: int)
    requires |s| > 1 && !IsSpace(s[0]) && !IsSpace(s[1]) && |Words(s[1..])| > 1 && j > 0
    requires LastWordAt(s[1..], j, Words(s[1..])[|Words(s[1..])| - 1])
    ensures |Words(s)| > 1
    ensures LastWordAt(s, j + 1, Words(s)[|Words(s)| - 1])
  {
    var rest := Words(s[1..]);
    assert Words(s) == [[s[0]] + rest[0]] + rest[1..];
    ShiftLastWord(s, j, rest[|rest| - 1]);
  }

  /** `WordsLastStart` when `s` holds one word, longer than one character, at its start. */
  lemma OnlyLongerWord(s: string)
    requires |s| > 1 && !IsSpace(s[0]) && !IsSpace(s[1]) && |Words(s[1..])| == 1
    requires LastWordAt(s[1..], 0, Words(s[1..])[0])
    ensures |Words(s)| == 1
    ensures LastWordAt(s, 0, Words(s)[0])
  {
    var rest := Words(s[1..]);
    assert Words(s) == [[s[0]] + rest[0]];
    ExtendWordLeft(s, rest[0]);
  }

  /** `WordsLastStart` when `s` is one non-space character and whitespace. */
  lemma OnlySingleCharWord(s: string)
    requires s != [] && !IsSpace(s[0]) && (|s| == 1 || IsSpace(s[1])) && Words(s[1..]) == []
    ensures |Words(s)| == 1
    ensures LastWordAt(s, 0, Words(s)[0])
  {
    WordsEmptyIffBlank(s[1..]);
    assert Words(s) == [[s[0]]];
    SingleCharWord(s);
  }

  /** `WordsLastStart` when `s` opens with a one-character word and more words follow. */
  lemma LastAfterSingleCharWord(s: string, j: int)
    requires |s| > 1 && !IsSpace(s[0]) && IsSpace(s[1]) && Words(s[1..]) != []
    requires LastWordAt(s[1..], j, Words(s[1..])[|Words(s[1..])| - 1])
    ensures |Words(s)| > 1
    ensures LastWordAt(s, j + 1, Words(s)[|Words(s)| - 1])
  {
    var rest := Words(s[1..]);
    var w := rest[|rest| - 1];
    assert Words(s) == [[s[0]]] + rest;
    assert s[1..][j] == w[0];
    ShiftLastWord(s, j, w);
  }

  /** A non-space character in front of a word that starts `s[1..]` and ends the text extends that word. */
  lemma ExtendWordLeft(s: string, v: string)
    requires s != [] && !IsSpace(s[0]) && LastWordAt(s[1..], 0, v)
    ensures LastWordAt(s, 0, [s[0]] + v)
  {
    var w := [s[0]] + v;
    assert s[..|w|] == [s[0]] + s[1..][..|v|];
    assert s[|w|..] == s[1..][|v|..];
    assert forall k :: 1 <= k < |w| ==> w[k] == v[k - 1];
  }

  /** A non-space character followed only by whitespace is the last word, at 0. */
  lemma SingleCharWord(s: string)
    requires s != [] && !IsSpace(s[0]) && IsBlank(s[1..])
    ensures LastWordAt(s, 0, [s[0]])
  {
    assert s[..1] == [s[0]];
  }

  /** A last word of `s[1..]` not at its start is also the last word of `s`, one place on. */
  lemma ShiftLastWord(s: string, j: int, w: string)
    requires s != [] && LastWordAt(s[1..], j, w)
    requires j == 0 ==> IsSpace(s[0])
    requires j > 0 ==> IsSpace(s[1..][j - 1])
    ensures LastWordAt(s, j + 1, w)
  {
    assert s[j + 1..j + 1 + |w|] == s[1..][j..j + |w|];
    assert s[j + 1 + |w|..] == s[1..][j + |w|..];
  }

  /** The last word of `s.split()` is the last maximal run of non-whitespace of `s`. */
  lemma WordsLastIsLastRun(s: string)
    requires Words(s) != []
    ensures var w := Words(s)[|Words(s)| - 1]; exists i :: LastWordAt(s, i, w)
  {
    var i := WordsLastStart(s);
  }

  /** A string has at most one last word: position and text are determined. */
  lemma LastWordUnique(s: string, i: int, w: string, j: int, v: string)
    requires LastWordAt(s, i, w) && LastWordAt(s, j, v)
    ensures i == j && w == v
  {
    forall k | i + |w| <= k < |s| ensures IsSpace(s[k]) {
      assert s[i + |w|..][k - i - |w|] == s[k];
    }
    forall k | j + |v| <= k < |s| ensures IsSpace(s[k]) {
      assert s[j + |v|..][k - j - |v|] == s[k];
    }
    forall k | i <= k < i + |w| ensures !IsSpace(s[k]) {
      assert s[i..i + |w|][k - i] == s[k];
    }
    forall k | j <= k < j + |v| ensures !IsSpace(s[k]) {
      assert s[j..j + |v|][k - j] == s[k];
    }
    assert !IsSpace(s[i + |w| - 1]) && !IsSpace(s[j + |v| - 1]);
    assert i + |w| == j + |v|;
    assert i == j;
  }
}
