/** The block of peer keys that an installer manages inside a file it does not own alone. */
module ManagedKeys {
  import opened Common
  import opened Text

  const START := "# BEGIN KOLAB FLEET READER"
  const END := "# END KOLAB FLEET READER"

  datatype Error = BadPeer | BadIdentity | BadKey | TooLarge | BadBlock

  function StripNewlines(s: string): string {
    if s != "" && s[0] == '\n' then StripNewlines(s[1..]) else s
  }

  /** The file without its managed block, if it has none or one well-formed block. */
  function Unmanaged(existing: string): Result<string, Error> {
    if Count(existing, START) != Count(existing, END) || Count(existing, START) > 1 then Err(BadBlock)
    else
      match Cut(existing, START)
      case None => Ok(existing)
      case Some((before, rest)) =>
        match Cut(rest, END)
        case None => Err(BadBlock)
        case Some((_, after)) => Ok(StripRight(before) + "\n" + StripNewlines(after))
  }

  /** Lines joined by newlines. */
  function Joined(lines: seq<string>): string {
    if lines == [] then "" else if |lines| == 1 then lines[0]
    else Joined(lines[..|lines| - 1]) + "\n" + lines[|lines| - 1]
  }

  /** The managed block goes last. */
  function Placed(kept: string, lines: seq<string>): string {
    StripRight(kept) + (if Blank(kept) then "" else "\n") + Joined(lines) + "\n"
  }

  function Block(body: seq<string>): seq<string> {
    [START] + body + [END]
  }

  function Rewritten(existing: string, body: seq<string>): Result<string, Error> {
    var kept := Unmanaged(existing);
    if kept.Err? then kept else Ok(Placed(kept.value, Block(body)))
  }

  // ---- Rewriting again ----

  predicate Quiet(body: seq<string>) {
    forall i :: 0 <= i < |body| ==> '#' !in body[i]
  }

  predicate Clean(s: string) {
    Count(s, START) == 0 && Count(s, END) == 0
  }

  function Ended(body: seq<string>): string {
    if body == [] then "" else Ended(body[..|body| - 1]) + body[|body| - 1] + "\n"
  }

  lemma {:induction false} JoinedBlock(body: seq<string>)
    ensures Joined([START] + body) + "\n" == START + ("\n" + Ended(body))
    ensures Joined(Block(body)) == START + ("\n" + Ended(body)) + END
  {
    var head := [START] + body;
    if body != [] {
      var n := |body| - 1;
      JoinedBlock(body[..n]);
      assert head[..|head| - 1] == [START] + body[..n];
    }
    assert Block(body)[..|head|] == head;
  }

  lemma {:induction false} EndedIsQuiet(body: seq<string>)
    requires Quiet(body)
    ensures '#' !in Ended(body)
  {
    if body != [] {
      EndedIsQuiet(body[..|body| - 1]);
    }
  }

  lemma {:induction false} StripNewlinesTrims(s: string) returns (w: string)
    ensures s == w + StripNewlines(s) && forall i :: 0 <= i < |w| ==> w[i] == '\n'
  {
    if s != "" && s[0] == '\n' {
      var w' := StripNewlinesTrims(s[1..]);
      w := ['\n'] + w';
    } else {
      w := "";
    }
  }

  lemma MarkersBreak(c: char)
    requires c == '\n' || c == '#'
    ensures Breaks(c, START) && Breaks(c, END)
  {
  }

  /** Text after a newline or a marker is counted apart. */
  lemma CountApart(u: string, v: string)
    requires v == "" || v[0] == '\n' || v[0] == '#'
    ensures Count(u + v, START) == Count(u, START) + Count(v, START)
    ensures Count(u + v, END) == Count(u, END) + Count(v, END)
  {
    if v != "" {
      MarkersBreak(v[0]);
    }
    CountBreaks(u, v, START);
    CountBreaks(u, v, END);
  }

  lemma CountAfterQuiet(u: string, v: string)
    requires '#' !in u
    ensures Count(u + v, START) == Count(v, START) && Count(u + v, END) == Count(v, END)
  {
    Skips(u, v, START);
    Skips(u, v, END);
  }

  /** Two marks, counted over text that follows the first. */
  lemma CountAfterMark(p: string, q: string, v: string)
    requires |p| > 2 && |q| > 2 && p[0] == q[0] && q[0] !in p[1..] && p[2] != q[2]
    ensures Count(p + v, p) == 1 + Count(v, p) && Count(p + v, q) == Count(v, q)
  {
    var tail := p[1..];
    assert p + v == [p[0]] + (tail + v);
    assert (p + v)[2] == p[2];
    hide Count;
    Now(v, p);
    Later(p[0], tail + v, q);
    Skips(tail, v, q);
  }

  lemma CountAfterStart(v: string)
    ensures Count(START + v, START) == 1 + Count(v, START) && Count(START + v, END) == Count(v, END)
  {
    hide Count;
    assert START[2] != END[2] && '#' !in START[1..];
    CountAfterMark(START, END, v);
  }

  lemma CountAfterEnd(v: string)
    ensures Count(END + v, END) == 1 + Count(v, END) && Count(END + v, START) == Count(v, START)
  {
    hide Count;
    assert START[2] != END[2] && '#' !in END[1..];
    CountAfterMark(END, START, v);
  }

  /** What is outside a well-formed block. */
  datatype Parts = Parts(before: string, inside: string, after: string)

  function Whole(p: Parts): string {
    p.before + (START + (p.inside + (END + p.after)))
  }

  lemma WholeCounts(p: Parts)
    ensures Count(Whole(p), START) == Count(p.before, START) + 1 + Count(p.inside, START) + Count(p.after, START)
    ensures Count(Whole(p), END) == Count(p.before, END) + Count(p.inside, END) + 1 + Count(p.after, END)
  {
    hide Count;
    var tail := END + p.after;
    var rest := p.inside + tail;
    CountAfterEnd(p.after);
    CountApart(p.inside, tail);
    CountAfterStart(rest);
    CountApart(p.before, START + rest);
  }

  /** An accepted file has no marker at all, or is some marker-free text around one block. */
  lemma AcceptedParts(existing: string) returns (parts: Option<Parts>)
    requires Unmanaged(existing).Ok?
    ensures parts.None? ==> Clean(existing) && Unmanaged(existing) == Ok(existing)
    ensures parts.Some? ==>
      var p := parts.value;
      && existing == Whole(p) && Clean(p.before) && Clean(p.inside) && Clean(p.after)
      && Unmanaged(existing) == Ok(StripRight(p.before) + "\n" + StripNewlines(p.after))
  {
    hide Count, Cut;
    CutNone(existing, START);
    match Cut(existing, START) {
      case None =>
        return None;
      case Some((before, rest)) =>
        CutSplits(existing, START, before, rest);
        var (inside, after) := Cut(rest, END).value;
        CutSplits(rest, END, inside, after);
        var p := Parts(before, inside, after);
        assert existing == Whole(p);
        WholeCounts(p);
        parts := Some(p);
    }
  }

  lemma {:induction false} CleanPrefix(u: string, v: string)
    requires Clean(u + v)
    ensures Clean(u)
  {
    CountPrefix(u, v, START);
    CountPrefix(u, v, END);
  }

  lemma CleanStripped(s: string)
    requires Clean(s)
    ensures Clean(StripRight(s))
  {
    var w := StripRightTrims(s);
    CleanPrefix(StripRight(s), w);
  }

  /** What is kept of an accepted file has no marker. */
  lemma KeptIsClean(existing: string)
    requires Unmanaged(existing).Ok?
    ensures Clean(Unmanaged(existing).value)
  {
    var parts := AcceptedParts(existing);
    if parts.Some? {
      KeptAround(parts.value);
    }
  }

  lemma KeptAround(p: Parts)
    requires Clean(p.before) && Clean(p.after)
    ensures Clean(StripRight(p.before) + "\n" + StripNewlines(p.after))
  {
    hide Count, StripRight, StripNewlines;
    var tail := StripNewlines(p.after);
    var w := StripNewlinesTrims(p.after);
    CountAfterQuiet(w, tail);
    CountAfterQuiet("\n", tail);
    CleanStripped(p.before);
    CountApart(StripRight(p.before), "\n" + tail);
    assert StripRight(p.before) + "\n" + tail == StripRight(p.before) + ("\n" + tail);
  }

  lemma CountNothing()
    ensures Clean("")
  {
  }

  lemma CleanNewline()
    ensures Clean("\n")
  {
    CountNothing();
    CountAfterQuiet("\n", "");
    assert "\n" + "" == "\n";
  }

  /** What precedes the block in a rewritten file. */
  function Above(kept: string): string {
    StripRight(kept) + if Blank(kept) then "" else "\n"
  }

  lemma AboveIsClean(kept: string)
    requires Clean(kept)
    ensures Clean(Above(kept))
  {
    hide Count, StripRight;
    CleanStripped(kept);
    if Blank(kept) {
      assert Above(kept) == StripRight(kept);
    } else {
      CleanNewline();
      CountApart(StripRight(kept), "\n");
    }
  }

  lemma Regroup(a: string, b: string, c: string, d: string, e: string)
    ensures a + (b + c + d) + e == a + (b + (c + (d + e)))
  {
  }

  lemma PlacedParts(kept: string, body: seq<string>)
    ensures Placed(kept, Block(body)) == Whole(Parts(Above(kept), "\n" + Ended(body), "\n"))
  {
    hide Joined, Block, Ended, StripRight, Blank;
    JoinedBlock(body);
    Regroup(Above(kept), START, "\n" + Ended(body), END, "\n");
  }

  /** The text of the managed block. */
  function Managed(file: string): Option<string> {
    match Cut(file, START)
    case None => None
    case Some((_, rest)) =>
      match Cut(rest, END)
      case None => None
      case Some((inside, _)) => Some(inside)
  }

  /** Text around one block is taken apart again where it was put together. */
  lemma WholeIsRead(p: Parts)
    requires Clean(p.before) && Clean(p.inside) && Clean(p.after)
    ensures Unmanaged(Whole(p)) == Ok(StripRight(p.before) + "\n" + StripNewlines(p.after))
    ensures Managed(Whole(p)) == Some(p.inside)
  {
    hide Count, Cut, StripRight, StripNewlines;
    var tail := END + p.after;
    var rest := p.inside + tail;
    WholeCounts(p);
    MarkersBreak('#');
    Now(rest, START);
    CutBreaks(p.before, START + rest, START);
    Now(p.after, END);
    CutBreaks(p.inside, tail, END);
    assert p.before + "" == p.before && p.inside + "" == p.inside;
  }

  /** A file is accepted exactly when it has no marker, or has one block in text without markers. */
  lemma AcceptedIff(existing: string)
    ensures Unmanaged(existing).Ok? <==>
      Clean(existing) || exists p :: existing == Whole(p) && Clean(p.before) && Clean(p.inside) && Clean(p.after)
  {
    hide Whole, StripRight, StripNewlines;
    if Unmanaged(existing).Ok? {
      var parts := AcceptedParts(existing);
      if parts.Some? {
        var p := parts.value;
        assert existing == Whole(p);
      }
    } else {
      CutNone(existing, START);
      if p :| existing == Whole(p) && Clean(p.before) && Clean(p.inside) && Clean(p.after) {
        WholeIsRead(p);
      }
    }
  }

  /** A rewritten file is accepted, and holds one block: the new one. */
  lemma RewrittenParts(existing: string, body: seq<string>)
    requires Unmanaged(existing).Ok? && Quiet(body)
    ensures
      var out := Rewritten(existing, body).value;
      && Managed(out) == Some("\n" + Ended(body))
      && Unmanaged(out) == Ok(StripRight(Above(Unmanaged(existing).value)) + "\n" + StripNewlines("\n"))
  {
    hide Count, Unmanaged, Managed, Ended, StripRight, StripNewlines;
    var kept := Unmanaged(existing).value;
    var inside := "\n" + Ended(body);
    KeptIsClean(existing);
    AboveIsClean(kept);
    CleanNewline();
    EndedIsQuiet(body);
    CountNothing();
    CountAfterQuiet(inside, "");
    assert inside + "" == inside;
    PlacedParts(kept, body);
    WholeIsRead(Parts(Above(kept), inside, "\n"));
  }

  /** Rewriting a rewritten file gives what rewriting the first file gives: the last set of lines wins, byte for byte. */
  lemma LastRewriteWins(existing: string, first: seq<string>, second: seq<string>)
    requires Unmanaged(existing).Ok? && Quiet(first)
    ensures Rewritten(Rewritten(existing, first).value, second) == Rewritten(existing, second)
  {
    hide Unmanaged, Whole, Clean, Ended, StripRight, StripNewlines, Managed;
    var kept := Unmanaged(existing).value;
    RewrittenParts(existing, first);
    AboveAgain(kept, Block(second));
  }

  lemma AboveAgain(kept: string, lines: seq<string>)
    ensures Placed(StripRight(Above(kept)) + "\n" + StripNewlines("\n"), lines) == Placed(kept, lines)
  {
    var top := StripRight(kept);
    var w := StripRightTrims(kept);
    StripRightOver(top, w);
    assert StripRight(top) == top;
    StripRightOver(top, "\n");
    assert StripRight(Above(kept)) == top;
    assert StripNewlines("\n") == "";
    assert top + "\n" + "" == top + "\n";
    assert Blank(top + "\n") <==> Blank(kept) by {
      assert Blank(kept) <==> top == "";
      assert top != "" ==> (top + "\n")[|top| - 1] == top[|top| - 1];
    }
  }

  // ---- What a rewrite keeps ----

  lemma StripRightKeeps(s: string)
    requires s != "" && !IsSpace(s[|s| - 1])
    ensures StripRight(s) == s
  {
  }

  /** The text around the old block, trimmed at the block and at the end of the file, is kept in order above the new one. */
  lemma RewriteKeepsTheRest(p: Parts, body: seq<string>) returns (top: string, gap: string, gap': string, below: string, end: string)
    requires Clean(p.before) && Clean(p.inside) && Clean(p.after)
    ensures p.before == top + gap && Blank(gap)
    ensures p.after == gap' + below + end && Blank(end) && forall i :: 0 <= i < |gap'| ==> gap'[i] == '\n'
    ensures Rewritten(Whole(p), body) == Ok(
        top + (if below == "" then "" else "\n" + below) + (if top + below == "" then "" else "\n")
        + Joined(Block(body)) + "\n")
  {
    hide Unmanaged, Managed, Whole, Clean, Joined, StripNewlines;
    WholeIsRead(p);
    top := StripRight(p.before);
    gap := StripRightTrims(p.before);
    var tail := StripNewlines(p.after);
    gap' := StripNewlinesTrims(p.after);
    below := StripRight(tail);
    end := StripRightTrims(tail);
    hide StripRight;
    StripKept(top, below, end);
    assert top + "\n" + tail == top + "\n" + below + end;
    assert gap' + tail == gap' + below + end;
  }

  lemma StripKept(top: string, below: string, end: string)
    requires top == "" || !IsSpace(top[|top| - 1])
    requires below == "" || !IsSpace(below[|below| - 1])
    requires Blank(end)
    ensures StripRight(top + "\n" + below + end) == top + if below == "" then "" else "\n" + below
    ensures Blank(top + "\n" + below + end) <==> top + below == ""
  {
    var body := top + "\n" + below;
    StripRightOver(body, end);
    if below == "" {
      assert body == top + "\n";
      StripRightOver(top, "\n");
      assert top != "" ==> StripRight(top) == top;
    } else {
      assert body[|body| - 1] == below[|below| - 1];
      StripRightKeeps(body);
      assert body == top + ("\n" + below);
    }
    var w := StripRightTrims(body + end);
  }

  /** A file without a block keeps all its text but the white space at its end. */
  lemma FirstRewriteKeepsAll(existing: string, body: seq<string>) returns (end: string)
    requires Clean(existing)
    ensures existing == StripRight(existing) + end && Blank(end)
    ensures Rewritten(existing, body) ==
      Ok(StripRight(existing) + (if Blank(existing) then "" else "\n") + Joined(Block(body)) + "\n")
  {
    end := StripRightTrims(existing);
    CutNone(existing, START);
  }
}
