/** `ModRuby.backtrace(e, message)`: the HTML diagnostic written to the
    response in place of a failed script's output, and a reader that
    recovers the header and the stack frames from it. */
module Diagnostics {
  import opened Text
  import opened Exceptions

  const Preamble := "<pre>ModRuby BACKTRACE\n\n"
  const HandledBy := "Handled by : "
  const StackHeading := "Stack:\n"
  /** Field width of the class name in `"%-11s: %s\n"`. */
  const ClassWidth: nat := 11
  /** Field width of the frame number in `"%3i. %s\n"`. */
  const NumberWidth: nat := 3

  /** Everything before the escaped header: fixed preamble and the handler,
      copied verbatim. */
  function Opening(handler: string): string {
    Preamble + HandledBy + handler + "\n"
  }

  /** `sprintf("%-11s: %s", e.class, e.to_s)`, before its newline. */
  function HeaderText(e: Exc): string {
    PadRight(ClassName(e), ClassWidth) + ": " + ToS(e)
  }

  /** The header is the whole class name (never truncated), spaces up to
      column 11, then `": "` and `to_s`. */
  lemma HeaderShape(e: Exc)
    ensures var h, cn, w := HeaderText(e), ClassName(e), Max(|ClassName(e)|, ClassWidth);
      && |h| == w + 2 + |ToS(e)|
      && h[..|cn|] == cn
      && (forall i :: |cn| <= i < w ==> h[i] == ' ')
      && h[w..] == ": " + ToS(e)
  {
    var cn := PadRight(ClassName(e), ClassWidth);
    assert (cn + ": " + ToS(e))[..|ClassName(e)|] == cn[..|ClassName(e)|];
    assert (cn + ": " + ToS(e))[|cn|..] == ": " + ToS(e);
  }

  /** The header line as formatted, newline included. */
  function Header(e: Exc): string {
    HeaderText(e) + "\n"
  }

  /** The number column of frame `i`: right-aligned to width 3, then `". "`. */
  function FramePrefix(i: nat): string {
    PadLeft(NatToDecimal(i), NumberWidth) + ". "
  }

  /** `sprintf("%3i. %s\n", i, stack)`. */
  function FrameLine(i: nat, frame: string): string {
    FramePrefix(i) + frame + "\n"
  }

  /** The frame lines, numbered from `i` on in backtrace order. */
  function Listing(frames: seq<string>, i: nat): (r: string)
    ensures r == [] <==> frames == []
    decreases |frames|
  {
    if frames == [] then []
    else FrameLine(i, frames[0]) + Listing(frames[1..], i + 1)
  }

  /** `ModRuby.backtrace(e, handler)`. */
  function Backtrace(e: Exc, handler: string): string {
    Opening(handler) + Escape(Header(e)) + StackHeading + Listing(e.frames, 1)
  }

  /** The report is the opening with the handler label verbatim, then the
      escaped header line (free of raw markup, see `EscapeSafe`), then
      `"Stack:\n"`, then the frame listing, which is empty when there are
      no frames. */
  lemma ReportLayout(e: Exc, handler: string)
    ensures var r, o, x := Backtrace(e, handler), Opening(handler), Escape(Header(e));
      && |o| + |x| + |StackHeading| <= |r|
      && r[..|o|] == o
      && r[|o|..|o| + |x|] == x
      && r[|o| + |x|..|o| + |x| + |StackHeading|] == StackHeading
      && r[|o| + |x| + |StackHeading|..] == Listing(e.frames, 1)
      && (e.frames == [] ==> |r| == |o| + |x| + |StackHeading|)
  {
    Slices(Opening(handler), Escape(Header(e)), StackHeading, Listing(e.frames, 1));
  }

  /** Where each of four concatenated parts sits in the whole. */
  lemma Slices(a: string, b: string, c: string, d: string)
    ensures var w, i, j, k := a + b + c + d, |a|, |a| + |b|, |a| + |b| + |c|;
      && |w| == k + |d|
      && w[..i] == a && w[i..j] == b && w[j..k] == c && w[k..] == d
  {
  }

  /** Every report opens a preformatted block. */
  lemma ReportOpensWithPre(e: Exc, handler: string)
    ensures |Backtrace(e, handler)| >= 5 && Backtrace(e, handler)[..5] == "<pre>"
  {
    var r, o := Backtrace(e, handler), Opening(handler);
    assert |o| <= |r| && r[..|o|] == o by {
      ReportLayout(e, handler);
    }
    OpeningStartsWithPre(handler);
    assert r[..5] == r[..|o|][..5];
  }

  lemma OpeningStartsWithPre(handler: string)
    ensures |Opening(handler)| >= 5 && Opening(handler)[..5] == "<pre>"
  {
    var o, rest := Opening(handler), HandledBy + handler + "\n";
    assert o == Preamble + rest by {
      LineRegroup(Preamble, HandledBy + handler, []);
    }
    assert Preamble[..5] == "<pre>";
    assert o[..5] == Preamble[..5];
  }

  // ---------------------------------------------------------------------------
  // Reading a report back
  // ---------------------------------------------------------------------------

  /** What a reader recovers from a report: the header line, unescaped and
      without its newline, and the frames in order. */
  datatype Parsed = Parsed(header: string, frames: seq<string>)

  predicate FramesWithoutNewlines(frames: seq<string>) {
    forall k :: 0 <= k < |frames| ==> NoNewline(frames[k])
  }

  /** Reads frame lines that must be numbered `i`, `i + 1`, ... in turn. */
  function ParseListing(t: string, i: nat): Option<seq<string>>
    decreases |t|
  {
    if t == [] then Some([])
    else
      var p := FramePrefix(i);
      if |p| <= |t| && t[..|p|] == p then
        match SplitLine(t[|p|..])
        case NoLineEnd => None
        case Split(f, rest) =>
          match ParseListing(rest, i + 1)
          case None => None
          case Some(fs) => Some([f] + fs)
      else None
  }

  /** The frame listing numbers the frames consecutively from `i` and copies
      each verbatim, so reading it back yields the frames. */
  lemma {:induction false} ListingRoundTrip(frames: seq<string>, i: nat)
    requires FramesWithoutNewlines(frames)
    ensures ParseListing(Listing(frames, i), i) == Some(frames)
    decreases |frames|
  {
    if frames != [] {
      var f, tail := frames[0], frames[1..];
      assert FramesWithoutNewlines(tail) by {
        forall k | 0 <= k < |tail| ensures NoNewline(tail[k]) {
          assert tail[k] == frames[k + 1];
        }
      }
      ListingRoundTrip(tail, i + 1);
      assert ParseListing(Listing(frames, i), i) == Some([f] + tail) by {
        ListingUnfold(frames, i);
        ParseStep(FramePrefix(i), f, Listing(tail, i + 1), i);
      }
      assert [f] + tail == frames;
    }
  }

  /** The first frame line, then the rest of the listing. */
  lemma ListingUnfold(frames: seq<string>, i: nat)
    requires frames != []
    ensures Listing(frames, i) == FramePrefix(i) + (frames[0] + "\n" + Listing(frames[1..], i + 1))
  {
    LineRegroup(FramePrefix(i), frames[0], Listing(frames[1..], i + 1));
  }

  lemma LineRegroup(a: string, b: string, d: string)
    ensures a + b + "\n" + d == a + (b + "\n" + d)
  {
  }

  /** Reading one frame line off the front of a listing. */
  lemma ParseStep(p: string, f: string, rest: string, i: nat)
    requires p == FramePrefix(i) && NoNewline(f)
    ensures ParseListing(p + (f + "\n" + rest), i)
         == match ParseListing(rest, i + 1)
            case None => None
            case Some(fs) => Some([f] + fs)
  {
    var t := p + (f + "\n" + rest);
    assert t[..|p|] == p && t[|p|..] == f + "\n" + rest;
    SplitLineAt(f, rest);
  }

  /** The header's closing newline followed by `"Stack:\n"` starts at
      position `j` of `r`. */
  predicate HeadingAt(r: string, j: int) {
    && 0 <= j && j + 1 + |StackHeading| <= |r|
    && r[j] == '\n' && r[j + 1] == 'S' && r[j + 2] == 't' && r[j + 3] == 'a'
    && r[j + 4] == 'c' && r[j + 5] == 'k' && r[j + 6] == ':' && r[j + 7] == '\n'
  }

  /** The last position below `n` where the heading starts, if any. */
  function LastHeading(r: string, n: nat): (res: Option<nat>)
    ensures res.Some? ==> res.value < n && HeadingAt(r, res.value)
    ensures res.Some? ==> forall j :: res.value < j < n ==> !HeadingAt(r, j)
    ensures res.None? ==> forall j :: 0 <= j < n ==> !HeadingAt(r, j)
  {
    if n == 0 then None
    else if HeadingAt(r, n - 1) then Some(n - 1)
    else LastHeading(r, n - 1)
  }

  /** Reads a report built with handler label `handler`. The escaped header
      may span several lines, but no frame line starts with `S`, so the
      header ends at the last heading in the report. */
  function ParseReport(r: string, handler: string): Option<Parsed> {
    ReadAfter(r, Opening(handler))
  }

  /** Reads a report that must open with `o`. */
  function ReadAfter(r: string, o: string): Option<Parsed> {
    if |o| <= |r| && r[..|o|] == o then
      match LastHeading(r, |r|)
      case None => None
      case Some(j) =>
        if j < |o| then None
        else
          match ParseListing(r[j + 1 + |StackHeading|..], 1)
          case None => None
          case Some(fs) => Some(Parsed(Unescape(r[|o|..j]), fs))
    else None
  }

  /** The report is the handler verbatim, the escaped header, and the frames
      verbatim and numbered from 1: reading it back recovers exactly the
      formatted header, whatever its class name and message hold, and the
      backtrace. */
  lemma {:induction false} ReportRoundTrip(e: Exc, handler: string)
    requires FramesWithoutNewlines(e.frames)
    ensures ParseReport(Backtrace(e, handler), handler) == Some(Parsed(HeaderText(e), e.frames))
  {
    var o, ht, l := Opening(handler), HeaderText(e), Listing(e.frames, 1);
    var x := Escape(ht);
    HeaderEscaped(e);
    Regroup(o, x, StackHeading, l);
    ListingRoundTrip(e.frames, 1);
    ListingOpens(e.frames, 1);
    ParseBuilt(o, x, l, e.frames);
    UnescapeEscape(ht);
  }

  /** Two failures whose reports under the same label coincide had the same
      header line and the same backtrace. */
  lemma ReportDetermines(e1: Exc, e2: Exc, handler: string)
    requires FramesWithoutNewlines(e1.frames) && FramesWithoutNewlines(e2.frames)
    requires Backtrace(e1, handler) == Backtrace(e2, handler)
    ensures HeaderText(e1) == HeaderText(e2) && e1.frames == e2.frames
  {
    ReportRoundTrip(e1, handler);
    ReportRoundTrip(e2, handler);
  }

  /** A multi-line message, as a `SyntaxError` from `Kernel::eval` carries,
      is read back whole. */
  lemma MultiLineMessageRead(handler: string)
    ensures var e := Exc(Generic("SyntaxError", "a\nb"), ["x.rb:1"]);
      ParseReport(Backtrace(e, handler), handler) == Some(Parsed(HeaderText(e), ["x.rb:1"]))
  {
    var e := Exc(Generic("SyntaxError", "a\nb"), ["x.rb:1"]);
    assert NoNewline(e.frames[0]);
    ReportRoundTrip(e, handler);
  }

  /** The escaped header is the escaped text, then its newline. */
  lemma HeaderEscaped(e: Exc)
    ensures Escape(Header(e)) == Escape(HeaderText(e)) + "\n"
  {
    EscapeAppend(HeaderText(e), "\n");
    assert Escape("\n") == "\n";
  }

  lemma Regroup(a: string, b: string, c: string, d: string)
    ensures a + (b + "\n") + c + d == (a + b) + ("\n" + c) + d
  {
  }

  /** Text laid out as opening `o`, header text, heading and a listing of
      `frames` is read back as that header and those frames. */
  lemma ParseBuilt(o: string, x: string, l: string, frames: seq<string>)
    requires LinesOpenWithNumber(l)
    requires |l| > 0 ==> l[0] == ' ' || IsDigit(l[0])
    requires ParseListing(l, 1) == Some(frames)
    ensures ReadAfter((o + x) + ("\n" + StackHeading) + l, o) == Some(Parsed(Unescape(x), frames))
  {
    var r := (o + x) + ("\n" + StackHeading) + l;
    var j := |o| + |x|;
    assert LastHeading(r, |r|) == Some(j) by {
      NoHeadingAfter(o + x, l);
      LastHeadingIs(r, j);
    }
    assert |o| <= |r| && r[..|o|] == o && r[|o|..j] == x && r[j + 1 + |StackHeading|..] == l by {
      BuiltParts(o, x, l);
    }
  }

  lemma BuiltParts(o: string, x: string, l: string)
    ensures var r := (o + x) + ("\n" + StackHeading) + l;
      && |o| + |x| + 1 + |StackHeading| <= |r|
      && r[..|o|] == o
      && r[|o|..|o| + |x|] == x
      && r[|o| + |x| + 1 + |StackHeading|..] == l
  {
  }

  /** The heading found last is the one at `k` when none follows it. */
  lemma LastHeadingIs(r: string, k: nat)
    requires HeadingAt(r, k)
    requires forall j :: k < j < |r| ==> !HeadingAt(r, j)
    ensures LastHeading(r, |r|) == Some(k)
  {
  }

  /** Every line of `t` opens with a space or a digit. */
  predicate LinesOpenWithNumber(t: string) {
    forall q :: 0 < q < |t| && t[q - 1] == '\n' ==> t[q] == ' ' || IsDigit(t[q])
  }

  /** What follows the heading never holds another heading: its lines
      open with the frame-number column. */
  lemma NoHeadingAfter(a: string, l: string)
    requires |l| > 0 ==> l[0] == ' ' || IsDigit(l[0])
    requires LinesOpenWithNumber(l)
    ensures var r := a + ("\n" + StackHeading) + l;
      && HeadingAt(r, |a|)
      && forall j :: |a| < j < |r| ==> !HeadingAt(r, j)
  {
    var h := "\n" + StackHeading;
    var r, b := a + h + l, |a|;
    assert h == "\nStack:\n";
    forall k | 0 <= k < |h| ensures r[b + k] == h[k] { }
    forall j | b < j < |r| ensures !HeadingAt(r, j) {
      if j < b + 7 {
        assert r[j] == h[j - b];
      } else if j == b + 7 {
        if j + 1 < |r| {
          assert r[j + 1] == l[0];
        }
      } else {
        var q := j - b - 8;
        assert r[j] == l[q];
        if r[j] == '\n' && j + 1 < |r| {
          assert r[j + 1] == l[q + 1];
        }
      }
    }
  }

  /** A frame line opens with a space or a digit and has no newline before
      the frame. */
  lemma FramePrefixOpens(i: nat)
    ensures var p := FramePrefix(i);
      |p| > 0 && (p[0] == ' ' || IsDigit(p[0])) && NoNewline(p)
  {
    var pl := PadLeft(NatToDecimal(i), NumberWidth);
    PaddedDigits(NatToDecimal(i), NumberWidth);
    var p := pl + ". ";
    forall k | 0 <= k < |p| ensures p[k] != '\n' {
      if k < |pl| {
        assert p[k] == pl[k];
      }
    }
  }

  /** A right-aligned numeral is spaces, then digits. */
  lemma PaddedDigits(d: string, width: nat)
    requires AllDigits(d)
    ensures var pl := PadLeft(d, width);
      forall k :: 0 <= k < |pl| ==> pl[k] == ' ' || IsDigit(pl[k])
  {
    var pl := PadLeft(d, width);
    forall k | 0 <= k < |pl| ensures pl[k] == ' ' || IsDigit(pl[k]) {
      if k >= |pl| - |d| {
        assert pl[k] == pl[|pl| - |d|..][k - (|pl| - |d|)];
      }
    }
  }

  /** The listing opens with a frame number, and so does each line of it. */
  lemma {:induction false} ListingOpens(frames: seq<string>, i: nat)
    requires FramesWithoutNewlines(frames)
    ensures var l := Listing(frames, i);
      (|l| > 0 ==> l[0] == ' ' || IsDigit(l[0])) && LinesOpenWithNumber(l)
    decreases |frames|
  {
    if frames != [] {
      var f, tail := frames[0], frames[1..];
      assert FramesWithoutNewlines(tail) by {
        forall k | 0 <= k < |tail| ensures NoNewline(tail[k]) {
          assert tail[k] == frames[k + 1];
        }
      }
      ListingOpens(tail, i + 1);
      ListingUnfold(frames, i);
      FramePrefixOpens(i);
      LinesJoin(FramePrefix(i), f, Listing(tail, i + 1));
    }
  }

  /** A newline-free line followed by text whose lines all open with a
      frame number. */
  lemma LinesJoin(p: string, f: string, rest: string)
    requires |p| > 0 && (p[0] == ' ' || IsDigit(p[0])) && NoNewline(p) && NoNewline(f)
    requires |rest| > 0 ==> rest[0] == ' ' || IsDigit(rest[0])
    requires LinesOpenWithNumber(rest)
    ensures var t := p + (f + "\n" + rest);
      t[0] == ' ' || IsDigit(t[0])
    ensures LinesOpenWithNumber(p + (f + "\n" + rest))
  {
    var t := p + (f + "\n" + rest);
    var m := |p| + |f|;
    assert t[0] == p[0];
    forall q | 0 < q < |t| ensures t[q - 1] == '\n' ==> t[q] == ' ' || IsDigit(t[q]) {
      if q - 1 < |p| {
        assert t[q - 1] == p[q - 1];
      } else if q - 1 < m {
        assert t[q - 1] == f[q - 1 - |p|];
      } else if q - 1 > m {
        assert t[q - 1] == rest[q - 2 - m] && t[q] == rest[q - 1 - m];
      } else {
        assert t[q] == rest[0];
      }
    }
  }

  /** The class name is padded to width 11 but never cut: ModRuby's own
      classes are longer, so their header is class, colon, text. */
  lemma OwnClassesUnpadded(e: Exc)
    requires !e.kind.Generic?
    ensures HeaderText(e) == ClassName(e) + ": " + ToS(e)
  {
  }

  /** `RequestTermination` always reports the same header. */
  lemma TerminationHeader(frames: seq<string>)
    ensures Header(Exc(RequestTermination, frames))
         == "ModRuby::RequestTermination: Request terminated\n"
  {
    OwnClassesUnpadded(Exc(RequestTermination, frames));
  }

  /** A `Redirect` reports its URL as the message. */
  lemma RedirectHeader(url: string, frames: seq<string>)
    ensures Header(Exc(Redirect(url), frames)) == "ModRuby::Redirect: " + url + "\n"
  {
    OwnClassesUnpadded(Exc(Redirect(url), frames));
  }

  /** A short class name is padded with spaces up to column 11. */
  lemma ShortClassPadded(message: string, frames: seq<string>)
    ensures Header(Exc(Generic("NameError", message), frames)) == "NameError  : " + message + "\n"
  {
  }

  /** A generic failure with message `boom` and one frame: the class is
      longer than the field, the header needs no escaping, and the single
      frame is numbered `  1.`. */
  lemma BoomReport()
    ensures Backtrace(Exc(Generic("RuntimeError", "boom"), ["x.rb:1"]), "ModRuby Turnstile")
         == Opening("ModRuby Turnstile") + "RuntimeError: boom\n" + StackHeading + "  1. x.rb:1\n"
  {
    var e := Exc(Generic("RuntimeError", "boom"), ["x.rb:1"]);
    BoomParts(e);
    FirstFrameLine("x.rb:1");
    Assemble(e, "ModRuby Turnstile", "RuntimeError: boom\n", "  1. x.rb:1\n");
  }

  lemma Assemble(e: Exc, handler: string, h: string, l: string)
    requires Escape(Header(e)) == h && Listing(e.frames, 1) == l
    ensures Backtrace(e, handler) == Opening(handler) + h + StackHeading + l
  {
  }

  lemma BoomParts(e: Exc)
    requires e == Exc(Generic("RuntimeError", "boom"), ["x.rb:1"])
    ensures Escape(Header(e)) == "RuntimeError: boom\n"
  {
    BoomHeader(e);
    EscapeIdentity(Header(e));
  }

  lemma BoomHeader(e: Exc)
    requires e == Exc(Generic("RuntimeError", "boom"), ["x.rb:1"])
    ensures Header(e) == "RuntimeError: boom\n" && NoSpecial(Header(e))
  {
  }

  lemma FirstFrameLine(frame: string)
    ensures Listing([frame], 1) == "  1. " + frame + "\n"
  {
    assert NatToDecimal(1) == "1";
    assert Spaces(2) == "  ";
    assert FramePrefix(1) == "  1. ";
  }

  /** A frame holding a newline followed by a frame number reads like two
      frames, so the listing round trip needs newline-free frames. */
  lemma ListingAmbiguousWithNewlines()
    ensures Listing(["a\n  2. b"], 1) == Listing(["a", "b"], 1)
    ensures !FramesWithoutNewlines(["a\n  2. b"])
  {
    FirstFrameLine("a\n  2. b");
    FirstFrameLine("a");
    var second := Listing(["b"], 2);
    assert FramePrefix(2) == "  2. " by {
      assert NatToDecimal(2) == "2";
      assert Spaces(2) == "  ";
    }
    assert Listing(["a", "b"], 1) == FrameLine(1, "a") + Listing(["b"], 2);
    assert ["a\n  2. b"][0][1] == '\n';
  }
}
