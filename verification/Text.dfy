/** The few string operations of the installers: white space, splitting and decimal numbers. */
module Text {
  import opened Common

  /** The characters that Python's `str.strip` removes. */
  predicate IsSpace(c: char) {
    || '\t' <= c <= '\r' || '\U{1c}' <= c <= ' ' || c == '\U{85}' || c == '\U{a0}' || c == '\U{1680}'
    || '\U{2000}' <= c <= '\U{200a}' || c == '\U{2028}' || c == '\U{2029}' || c == '\U{202f}' || c == '\U{205f}'
    || c == '\U{3000}'
  }

  predicate Blank(s: string) {
    forall i :: 0 <= i < |s| ==> IsSpace(s[i])
  }

  function StripLeft(s: string): string {
    if s != "" && IsSpace(s[0]) then StripLeft(s[1..]) else s
  }

  function StripRight(s: string): string {
    if s != "" && IsSpace(s[|s| - 1]) then StripRight(s[..|s| - 1]) else s
  }

  /** The pieces between the separators; always at least one. */
  function Split(s: string, separator: char): (pieces: seq<string>)
    ensures pieces != []
  {
    if s == "" then [""]
    else
      var rest := Split(s[1..], separator);
      if s[0] == separator then [""] + rest else [[s[0]] + rest[0]] + rest[1..]
  }

  lemma {:induction false} SplitWhole(s: string, separator: char)
    requires separator !in s
    ensures Split(s, separator) == [s]
  {
    if s != "" {
      SplitWhole(s[1..], separator);
      assert [s[0]] + s[1..] == s;
    }
  }

  lemma {:induction false} SplitFirst(s: string, separator: char, rest: string)
    requires separator !in s
    ensures Split(s + [separator] + rest, separator) == [s] + Split(rest, separator)
  {
    var whole := s + [separator] + rest;
    if s == "" {
      assert whole[1..] == rest;
    } else {
      SplitFirst(s[1..], separator, rest);
      assert whole[1..] == s[1..] + [separator] + rest;
      assert [s[0]] + s[1..] == s;
    }
  }

  function Glued(pieces: seq<string>, c: char): string
    requires pieces != []
  {
    if |pieces| == 1 then pieces[0] else pieces[0] + [c] + Glued(pieces[1..], c)
  }

  /** The pieces hold no separator, and with separators between them they are the text. */
  lemma {:induction false} SplitGlues(s: string, c: char)
    ensures Glued(Split(s, c), c) == s && forall p :: p in Split(s, c) ==> c !in p
  {
    if s != "" {
      var rest := Split(s[1..], c);
      SplitGlues(s[1..], c);
      assert s == [s[0]] + s[1..];
      if s[0] == c {
        assert ([""] + rest)[1..] == rest;
        assert "" + [c] + s[1..] == s;
      } else {
        FirstLonger(rest, s[0], c);
      }
    }
  }

  lemma FirstLonger(pieces: seq<string>, d: char, c: char)
    requires pieces != [] && d != c && forall p :: p in pieces ==> c !in p
    ensures
      var more := [[d] + pieces[0]] + pieces[1..];
      Glued(more, c) == [d] + Glued(pieces, c) && forall p :: p in more ==> c !in p
  {
    var more := [[d] + pieces[0]] + pieces[1..];
    assert more[1..] == pieces[1..];
    assert pieces[0] in pieces && forall p :: p in pieces[1..] ==> p in pieces;
    if |pieces| > 1 {
      assert [d] + pieces[0] + [c] + Glued(pieces[1..], c) == [d] + (pieces[0] + [c] + Glued(pieces[1..], c));
    }
  }

  predicate IsDigit(c: char) {
    '0' <= c <= '9'
  }

  predicate IsDigits(s: string) {
    s != "" && forall i :: 0 <= i < |s| ==> IsDigit(s[i])
  }

  function Value(s: string): nat
    requires forall i :: 0 <= i < |s| ==> IsDigit(s[i])
  {
    if s == "" then 0
    else
      assert IsDigit(s[|s| - 1]);
      10 * Value(s[..|s| - 1]) + (s[|s| - 1] as int - '0' as int)
  }

  function Decimal(n: nat): (s: string)
    ensures IsDigits(s)
  {
    var last := [('0' as int + n % 10) as char];
    if n < 10 then last else Decimal(n / 10) + last
  }

  lemma {:induction false} DecimalValue(n: nat)
    ensures Value(Decimal(n)) == n
  {
    if n >= 10 {
      DecimalValue(n / 10);
    }
  }

  // ---- Searching ----

  /** The text before and after the first occurrence, as `str.split(p, 1)` gives them. */
  function Cut(s: string, p: string): Option<(string, string)> {
    if p <= s then Some(("", s[|p|..]))
    else if s == "" then None
    else
      match Cut(s[1..], p)
      case None => None
      case Some((before, after)) => Some(([s[0]] + before, after))
  }

  /** How often a text occurs, counted from the left without overlaps, as `str.count` does. */
  function Count(s: string, p: string): nat
    requires p != ""
  {
    if s == "" then 0
    else if p <= s then 1 + Count(s[|p|..], p)
    else Count(s[1..], p)
  }

  lemma Later(c: char, s: string, p: string)
    requires p != "" && !(p <= [c] + s)
    ensures Count([c] + s, p) == Count(s, p)
    ensures Cut([c] + s, p) ==
      match Cut(s, p) case None => None case Some((before, after)) => Some(([c] + before, after))
  {
    assert ([c] + s)[1..] == s;
  }

  lemma Now(s: string, p: string)
    requires p != ""
    ensures Count(p + s, p) == 1 + Count(s, p) && Cut(p + s, p) == Some(("", s))
  {
    assert (p + s)[|p|..] == s;
  }

  lemma PrefixOf(p: string, s: string)
    requires p <= s
    ensures s == p + s[|p|..]
  {
  }

  lemma {:induction false} CutNone(s: string, p: string)
    requires p != ""
    ensures Cut(s, p).None? <==> Count(s, p) == 0
  {
    if s != "" && !(p <= s) {
      CutNone(s[1..], p);
    }
  }

  /** The first occurrence splits a text, and what comes before has none. */
  lemma {:induction false} CutSplits(s: string, p: string, before: string, after: string)
    requires p != "" && Cut(s, p) == Some((before, after))
    ensures s == before + p + after && Count(before, p) == 0 && Count(s, p) == 1 + Count(after, p)
  {
    if p <= s {
      PrefixOf(p, s);
      Now(s[|p|..], p);
    } else if s != "" {
      var c, t := s[0], s[1..];
      assert s == [c] + t;
      Later(c, t, p);
      var b := before[1..];
      assert before == [c] + b;
      hide Cut, Count;
      CutSplits(t, p, b, after);
      CutLater(c, t, p, b, after);
    }
  }

  lemma CutLater(c: char, t: string, p: string, b: string, after: string)
    requires p != "" && t == b + p + after && !(p <= [c] + t) && Count(b, p) == 0
    ensures [c] + t == [c] + b + p + after && Count([c] + b, p) == 0
  {
    assert [c] + t == [c] + b + p + after;
    assert p <= [c] + b ==> p <= [c] + t;
    Later(c, b, p);
  }

  lemma {:induction false} CountPrefix(u: string, v: string, p: string)
    requires p != "" && Count(u + v, p) == 0
    ensures Count(u, p) == 0
  {
    if u != "" {
      assert p <= u ==> p <= u + v;
      assert (u + v)[1..] == u[1..] + v;
      CountPrefix(u[1..], v, p);
    }
  }

  /** No occurrence starts in a text without the first character of what is sought. */
  lemma {:induction false} Skips(u: string, v: string, p: string)
    requires p != "" && p[0] !in u
    ensures Count(u + v, p) == Count(v, p)
    ensures Cut(v, p).Some? ==> Cut(u + v, p) == Some((u + Cut(v, p).value.0, Cut(v, p).value.1))
  {
    hide Cut, Count;
    if u == "" {
      assert u + v == v;
      assert Cut(v, p).Some? ==> u + Cut(v, p).value.0 == Cut(v, p).value.0;
    } else {
      var c, t := u[0], u[1..];
      Skips(t, v, p);
      assert u == [c] + t && u + v == [c] + (t + v);
      assert (u + v)[0] != p[0];
      assert Cut(v, p).Some? ==> u + Cut(v, p).value.0 == [c] + (t + Cut(v, p).value.0);
      Later(c, t + v, p);
    }
  }

  /** A text in which a character occurs at most at the start does not reach over that character. */
  predicate Breaks(c: char, p: string) {
    forall i :: 1 <= i < |p| ==> p[i] != c
  }

  lemma NotAcross(u: string, v: string, p: string)
    requires u != "" && p <= u + v && (v == "" || Breaks(v[0], p))
    ensures p <= u
  {
    assert forall i :: 0 <= i < |p| ==> p[i] == (u + v)[i];
    assert v != "" ==> (u + v)[|u|] == v[0];
  }

  lemma {:induction false} CountBreaks(u: string, v: string, p: string)
    requires p != "" && (v == "" || Breaks(v[0], p))
    ensures Count(u + v, p) == Count(u, p) + Count(v, p)
    decreases |u|
  {
    if u == "" {
      assert u + v == v;
    } else if p <= u + v {
      hide Count;
      NotAcross(u, v, p);
      PrefixOf(p, u);
      var t := u[|p|..];
      assert u + v == p + (t + v);
      Now(t, p);
      Now(t + v, p);
      CountBreaks(t, v, p);
    } else {
      hide Count;
      var c, t := u[0], u[1..];
      assert u == [c] + t && u + v == [c] + (t + v);
      assert p <= u ==> p <= u + v;
      Later(c, t, p);
      Later(c, t + v, p);
      CountBreaks(t, v, p);
    }
  }

  lemma {:induction false} CutBreaks(u: string, v: string, p: string)
    requires p != "" && v != "" && Breaks(v[0], p) && Count(u, p) == 0 && Cut(v, p).Some?
    ensures Cut(u + v, p) == Some((u + Cut(v, p).value.0, Cut(v, p).value.1))
  {
    hide Cut;
    if u == "" {
      assert u + v == v && u + Cut(v, p).value.0 == Cut(v, p).value.0;
    } else {
      var c, t := u[0], u[1..];
      assert u == [c] + t && u + v == [c] + (t + v);
      if p <= u + v {
        NotAcross(u, v, p);
        assert false;
      }
      Later(c, t + v, p);
      assert !(p <= u) && Count(t, p) == 0;
      assert u + Cut(v, p).value.0 == [c] + (t + Cut(v, p).value.0);
      CutBreaks(t, v, p);
    }
  }

  // ---- Trimming ----

  lemma BlankNext(s: string)
    requires s != ""
    ensures Blank(s) <==> Blank(s[..|s| - 1]) && IsSpace(s[|s| - 1])
    ensures s == s[..|s| - 1] + [s[|s| - 1]]
  {
    hide IsSpace;
  }

  lemma {:induction false} StripRightTrims(s: string) returns (w: string)
    ensures s == StripRight(s) + w && Blank(w)
    ensures StripRight(s) == "" || !IsSpace(StripRight(s)[|StripRight(s)| - 1])
    ensures StripRight(s) == "" <==> Blank(s)
  {
    hide IsSpace;
    if s != "" && IsSpace(s[|s| - 1]) {
      var front, c := s[..|s| - 1], s[|s| - 1];
      var w' := StripRightTrims(front);
      w := w' + [c];
      BlankNext(s);
      hide StripRight, Blank;
      assert StripRight(front) + w' + [c] == StripRight(front) + w;
      assert Blank(w) by {
        assert w[..|w| - 1] == w';
        BlankNext(w);
      }
    } else {
      w := "";
      if s != "" {
        BlankNext(s);
      }
    }
  }

  lemma {:induction false} StripRightOver(s: string, w: string)
    requires Blank(w)
    ensures StripRight(s + w) == StripRight(s)
  {
    if w == "" {
      assert s + w == s;
    } else {
      var front := w[..|w| - 1];
      assert (s + w)[..|s + w| - 1] == s + front;
      StripRightOver(s, front);
    }
  }
}
