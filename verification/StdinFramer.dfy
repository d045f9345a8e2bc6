/**
 The supervisor's line framer (bin/process-supervisor.js): standard input arrives in arbitrary chunks;
 complete lines are dispatched, one carriage return off their end, and the rest at the end of input.
 */
module StdinFramer {
  /** The supervisor's limit; what follows holds of every limit. */
  const MAX_CONTROL_LINE_CHARS := 4 * 1024 * 1024

  datatype Framer = Framer(buffer: string, dispatched: seq<string>, failures: nat)

  function Empty(): Framer { Framer("", [], 0) }

  // ---------------------------------------------------------------- the listeners

  /** replace(/\r$/, "") */
  function StripCr(line: string): string {
    if line != [] && line[|line| - 1] == '\r' then line[..|line| - 1] else line
  }

  function Newline(s: string): (n: nat)
    ensures n <= |s| && (n < |s| ==> s[n] == '\n') && '\n' !in s[..n]
  {
    if s == [] || s[0] == '\n' then 0 else 1 + Newline(s[1..])
  }

  /** The loop over the buffer's lines, up to one that is too long. */
  function Drain(f: Framer, max: nat): Framer
    decreases |f.buffer|
  {
    var n := Newline(f.buffer);
    if n == |f.buffer| then f
    else
      var line, rest := StripCr(f.buffer[..n]), f.buffer[n + 1..];
      if |line| > max then f.(buffer := rest, failures := f.failures + 1)
      else Drain(f.(buffer := rest, dispatched := f.dispatched + [line]), max)
  }

  function Data(f: Framer, chunk: string, max: nat): Framer {
    var buffer := f.buffer + chunk;
    if |buffer| > max && '\n' !in buffer then f.(buffer := "", failures := f.failures + 1)
    else Drain(f.(buffer := buffer), max)
  }

  predicate Space(c: char) {
    c == ' ' || '\t' <= c <= '\r' || c == '\U{00A0}' || c == '\U{1680}' || '\U{2000}' <= c <= '\U{200A}'
    || c == '\U{2028}' || c == '\U{2029}' || c == '\U{202F}' || c == '\U{205F}' || c == '\U{3000}' || c == '\U{FEFF}'
  }

  predicate Blank(line: string) { forall i :: 0 <= i < |line| ==> Space(line[i]) }

  function End(f: Framer): Framer {
    f.(buffer := "", dispatched := if Blank(f.buffer) then f.dispatched else f.dispatched + [StripCr(f.buffer)])
  }

  function Feed(f: Framer, chunks: seq<string>, max: nat): Framer {
    if chunks == [] then f else Data(Feed(f, chunks[..|chunks| - 1], max), chunks[|chunks| - 1], max)
  }

  /** What handleMessage acts on: it ignores blank lines. */
  function Handled(lines: seq<string>): seq<string> {
    if lines == [] then []
    else Handled(lines[..|lines| - 1]) + (if Blank(lines[|lines| - 1]) then [] else [lines[|lines| - 1]])
  }

  // ---------------------------------------------------------------- the stream's lines

  function Join(chunks: seq<string>): string {
    if chunks == [] then "" else Join(chunks[..|chunks| - 1]) + chunks[|chunks| - 1]
  }

  /** The stream cut at its newlines; the last piece is what no newline ends yet. */
  function Pieces(s: string): (p: seq<string>)
    ensures p != []
  {
    if s == [] then [""] else AddChar(Pieces(s[..|s| - 1]), s[|s| - 1])
  }

  function AddChar(pieces: seq<string>, c: char): (p: seq<string>)
    requires pieces != []
    ensures p != []
  {
    if c == '\n' then pieces + [""] else pieces[..|pieces| - 1] + [pieces[|pieces| - 1] + [c]]
  }

  function Stripped(lines: seq<string>): seq<string> {
    seq(|lines|, i requires 0 <= i < |lines| => StripCr(lines[i]))
  }

  /** The messages of a whole stream. */
  function Messages(s: string): seq<string> { Handled(Stripped(Pieces(s))) }

  predicate AllFit(lines: seq<string>, max: nat) { forall i :: 0 <= i < |lines| ==> |lines[i]| <= max }

  predicate Fits(s: string, max: nat) { AllFit(Pieces(s), max) }

  function Complete(s: string): seq<string> { Pieces(s)[..|Pieces(s)| - 1] }
  function Rest(s: string): string { Pieces(s)[|Pieces(s)| - 1] }

  // ---------------------------------------------------------------- cutting

  lemma {:induction false} NoNewlineOnePiece(s: string)
    requires '\n' !in s
    ensures Pieces(s) == [s]
  {
    if s != [] {
      var last := |s| - 1;
      assert s[last] in s;
      NoNewlineOnePiece(s[..last]);
      assert s[..last] + [s[last]] == s;
    }
  }

  lemma AddCharLater(before: seq<string>, p: seq<string>, c: char)
    requires p != []
    ensures AddChar(before + p, c) == before + AddChar(p, c)
  {
    assert (before + p)[..|before + p| - 1] == before + p[..|p| - 1];
  }

  lemma PiecesSnoc(s: string, more: string)
    requires more != []
    ensures Pieces(s + more) == AddChar(Pieces(s + more[..|more| - 1]), more[|more| - 1])
  {
    assert (s + more)[..|s + more| - 1] == s + more[..|more| - 1];
  }

  /** The pieces of a longer stream: those complete so far, and those of the rest with what is new. */
  lemma {:induction false} PiecesOfMore(s: string, more: string)
    ensures Pieces(s + more) == Complete(s) + Pieces(Rest(s) + more)
  {
    if more == [] {
      assert s + more == s && Rest(s) + more == Rest(s);
      RestIsOnePiece(s);
      assert Pieces(s) == Complete(s) + [Rest(s)];
    } else {
      var last := |more| - 1;
      PiecesOfMore(s, more[..last]);
      PiecesSnoc(s, more);
      PiecesSnoc(Rest(s), more);
      AddCharLater(Complete(s), Pieces(Rest(s) + more[..last]), more[last]);
    }
  }

  /** Lines joined by newlines. */
  function Lines(lines: seq<string>): string
    requires lines != []
  {
    if |lines| == 1 then lines[0] else Lines(lines[..|lines| - 1]) + "\n" + lines[|lines| - 1]
  }

  lemma NewlineAppends(s: string)
    ensures Pieces(s + "\n") == Pieces(s) + [""]
  {
    assert (s + "\n")[..|s|] == s;
  }

  lemma NextLine(s: string, line: string)
    requires '\n' !in line
    ensures Pieces(s + "\n" + line) == Pieces(s) + [line]
  {
    NewlineAppends(s);
    NoNewlineOnePiece(line);
    PiecesOfMore(s + "\n", line);
    assert "" + line == line;
  }

  lemma LinesNext(lines: seq<string>, n: nat)
    requires 0 < n < |lines|
    ensures Lines(lines[..n + 1]) == Lines(lines[..n]) + "\n" + lines[n]
  {
    assert lines[..n + 1][..n] == lines[..n];
  }

  lemma LinesStep(lines: seq<string>, n: nat)
    requires 0 < n < |lines| && Pieces(Lines(lines[..n])) == lines[..n] && '\n' !in lines[n]
    ensures Pieces(Lines(lines[..n + 1])) == lines[..n + 1]
  {
    LinesNext(lines, n);
    NextLine(Lines(lines[..n]), lines[n]);
  }

  lemma {:induction false} PiecesUpTo(lines: seq<string>, n: nat)
    requires 0 < n <= |lines| && forall i :: 0 <= i < n ==> '\n' !in lines[i]
    ensures Pieces(Lines(lines[..n])) == lines[..n]
    decreases n
  {
    if n == 1 {
      NoNewlineOnePiece(lines[0]);
      assert lines[..1] == [lines[0]];
    } else {
      PiecesUpTo(lines, n - 1);
      LinesStep(lines, n - 1);
    }
  }

  /** The pieces of a stream are the lines it was joined from, and one carriage return is taken off the end of each. */
  lemma PiecesAreLines(lines: seq<string>)
    requires lines != [] && forall i :: 0 <= i < |lines| ==> '\n' !in lines[i]
    ensures Pieces(Lines(lines)) == lines
    ensures Stripped(lines) == seq(|lines|, i requires 0 <= i < |lines| =>
              if lines[i] != "" && lines[i][|lines[i]| - 1] == '\r' then lines[i][..|lines[i]| - 1] else lines[i])
  {
    PiecesUpTo(lines, |lines|);
    assert lines[..|lines|] == lines;
  }

  lemma {:induction false} RestIsOnePiece(s: string)
    ensures '\n' !in Rest(s) && Pieces(Rest(s)) == [Rest(s)]
  {
    if s == [] {
      assert Pieces("") == [""];
    } else {
      RestIsOnePiece(s[..|s| - 1]);
    }
    NoNewlineOnePiece(Rest(s));
  }

  lemma LinePieces(line: string)
    requires '\n' !in line
    ensures Complete(line + "\n") == [line] && Rest(line + "\n") == ""
  {
    assert (line + "\n")[..|line|] == line;
    NoNewlineOnePiece(line);
    assert Pieces(line + "\n") == [line] + [""];
  }

  /** The first line comes off the front. */
  lemma FirstPiece(s: string, n: nat)
    requires n < |s| && s[n] == '\n' && '\n' !in s[..n]
    ensures Pieces(s) == [s[..n]] + Pieces(s[n + 1..])
  {
    var line, rest := s[..n], s[n + 1..];
    LinePieces(line);
    PiecesOfMore(line + "\n", rest);
    assert (line + "\n") + rest == s && "" + rest == rest;
  }

  // ---------------------------------------------------------------- a stream whose lines fit

  /** What a framer that has received s holds, while every line fits. */
  predicate Framed(f: Framer, s: string) {
    f.dispatched == Stripped(Complete(s)) && f.buffer == Rest(s) && f.failures == 0
  }

  lemma NewlineIs(s: string)
    ensures Newline(s) == |s| <==> '\n' !in s
  {
    if Newline(s) == |s| { assert s[..|s|] == s; }
  }

  lemma StrippedConcat(a: seq<string>, b: seq<string>)
    ensures Stripped(a + b) == Stripped(a) + Stripped(b)
  {
  }

  lemma CutFirst(s: string, n: nat, max: nat)
    requires n < |s| && s[n] == '\n' && '\n' !in s[..n] && Fits(s, max)
    ensures |s[..n]| <= max && Fits(s[n + 1..], max)
    ensures Complete(s) == [s[..n]] + Complete(s[n + 1..]) && Rest(s) == Rest(s[n + 1..])
  {
    var rest := s[n + 1..];
    FirstPiece(s, n);
    assert Pieces(s)[0] == s[..n];
    forall i | 0 <= i < |Pieces(rest)| ensures |Pieces(rest)[i]| <= max { assert Pieces(rest)[i] == Pieces(s)[i + 1]; }
  }

  lemma StripShortens(line: string)
    ensures |StripCr(line)| <= |line|
  {
  }

  /** One turn of the loop. */
  lemma DrainStep(f: Framer, n: nat, max: nat)
    requires n == Newline(f.buffer) < |f.buffer| && |StripCr(f.buffer[..n])| <= max
    ensures Drain(f, max) == Drain(Framer(f.buffer[n + 1..], f.dispatched + [StripCr(f.buffer[..n])], f.failures), max)
  {
  }

  lemma StrippedOne(line: string, lines: seq<string>)
    ensures Stripped([line] + lines) == [StripCr(line)] + Stripped(lines)
  {
  }

  /** Draining a buffer whose pieces fit dispatches all but the last of them. */
  lemma {:induction false} DrainFits(f: Framer, max: nat)
    requires Fits(f.buffer, max)
    ensures Drain(f, max) == Framer(Rest(f.buffer), f.dispatched + Stripped(Complete(f.buffer)), f.failures)
    decreases |f.buffer|
  {
    var n := Newline(f.buffer);
    NewlineIs(f.buffer);
    if n == |f.buffer| {
      NoNewlineOnePiece(f.buffer);
      assert Complete(f.buffer) == [] && f.dispatched + Stripped([]) == f.dispatched;
    } else {
      CutFirst(f.buffer, n, max);
      StripShortens(f.buffer[..n]);
      DrainStep(f, n, max);
      DrainFits(Framer(f.buffer[n + 1..], f.dispatched + [StripCr(f.buffer[..n])], f.failures), max);
      StrippedOne(f.buffer[..n], Complete(f.buffer[n + 1..]));
    }
  }

  lemma AllFitParts(a: seq<string>, b: seq<string>, max: nat)
    ensures AllFit(a + b, max) <==> AllFit(a, max) && AllFit(b, max)
  {
    if AllFit(a + b, max) {
      forall i | 0 <= i < |a| ensures |a[i]| <= max { assert a[i] == (a + b)[i]; }
      forall i | 0 <= i < |b| ensures |b[i]| <= max { assert b[i] == (a + b)[|a| + i]; }
    }
  }

  lemma FitsLess(s: string, more: string, max: nat)
    requires Fits(s + more, max)
    ensures Fits(s, max) && Fits(Rest(s) + more, max)
  {
    PiecesOfMore(s, more);
    AllFitParts(Complete(s), Pieces(Rest(s) + more), max);
    RestGrows(s, more);
    AllFitParts(Complete(s), [Rest(s)], max);
    assert Pieces(s) == Complete(s) + [Rest(s)];
  }

  /** The unfinished piece is the beginning of a piece of the longer stream. */
  lemma {:induction false} RestGrows(s: string, more: string)
    ensures |Rest(s)| <= |Pieces(Rest(s) + more)[0]|
  {
    if more == [] {
      assert Rest(s) + more == Rest(s);
      RestIsOnePiece(s);
    } else {
      var last := |more| - 1;
      RestGrows(s, more[..last]);
      assert (Rest(s) + more)[..|Rest(s) + more| - 1] == Rest(s) + more[..last];
    }
  }

  lemma DataFits(f: Framer, s: string, chunk: string, max: nat)
    requires Framed(f, s) && Fits(s + chunk, max)
    ensures Framed(Data(f, chunk, max), s + chunk)
  {
    var buffer := f.buffer + chunk;
    FitsLess(s, chunk, max);
    PiecesOfMore(s, chunk);
    if '\n' !in buffer {
      NoNewlineOnePiece(buffer);
      assert |Pieces(buffer)[0]| <= max;
    }
    DrainFits(f.(buffer := buffer), max);
    assert Complete(s + chunk) == Complete(s) + Complete(buffer) && Rest(s + chunk) == Rest(buffer);
    StrippedConcat(Complete(s), Complete(buffer));
  }

  lemma {:induction false} FeedFits(chunks: seq<string>, max: nat)
    requires Fits(Join(chunks), max)
    ensures Framed(Feed(Empty(), chunks, max), Join(chunks))
  {
    if chunks != [] {
      var last := |chunks| - 1;
      FitsLess(Join(chunks[..last]), chunks[last], max);
      FeedFits(chunks[..last], max);
      DataFits(Feed(Empty(), chunks[..last], max), Join(chunks[..last]), chunks[last], max);
    }
  }

  lemma BlankIgnoresCr(line: string)
    ensures Blank(line) <==> Blank(StripCr(line))
  {
  }

  lemma HandledOneMore(lines: seq<string>, line: string)
    ensures Handled(lines + [line]) == Handled(lines) + (if Blank(line) then [] else [line])
  {
    assert (lines + [line])[..|lines|] == lines;
  }

  /**
   Framing does not depend on the chunks: for every stream whose lines, carriage return included, fit the
   limit, however it is split, what is handled are its newline-separated lines, one trailing carriage
   return off each, and none is refused.
   */
  lemma FramingIgnoresChunks(chunks: seq<string>, max: nat)
    requires Fits(Join(chunks), max)
    ensures var f := End(Feed(Empty(), chunks, max));
            Handled(f.dispatched) == Messages(Join(chunks)) && f.buffer == "" && f.failures == 0
  {
    var s := Join(chunks);
    FeedFits(chunks, max);
    assert Pieces(s) == Complete(s) + [Rest(s)];
    StrippedConcat(Complete(s), [Rest(s)]);
    assert Stripped([Rest(s)]) == [StripCr(Rest(s))];
    HandledOneMore(Stripped(Complete(s)), StripCr(Rest(s)));
    BlankIgnoresCr(Rest(s));
    assert Handled(Stripped(Complete(s))) + [] == Handled(Stripped(Complete(s)));
  }

  // ---------------------------------------------------------------- exactly then

  function Chars(s: string): seq<string> { seq(|s|, i requires 0 <= i < |s| => [s[i]]) }

  lemma {:induction false} JoinChars(s: string)
    ensures Join(Chars(s)) == s
  {
    if s != [] {
      var last := |s| - 1;
      JoinChars(s[..last]);
      assert Chars(s)[..last] == Chars(s[..last]);
    }
  }

  lemma {:induction false} DrainKeepsFailures(f: Framer, max: nat)
    ensures Drain(f, max).failures >= f.failures
    decreases |f.buffer|
  {
    var n := Newline(f.buffer);
    if n < |f.buffer| {
      var line, rest := StripCr(f.buffer[..n]), f.buffer[n + 1..];
      if |line| <= max { DrainKeepsFailures(f.(buffer := rest, dispatched := f.dispatched + [line]), max); }
    }
  }

  lemma DataKeepsFailures(f: Framer, chunk: string, max: nat)
    ensures Data(f, chunk, max).failures >= f.failures
  {
    DrainKeepsFailures(f.(buffer := f.buffer + chunk), max);
  }

  lemma FitsNext(s: string, c: char, max: nat)
    requires Fits(s, max)
    ensures Fits(s + [c], max) <==> c == '\n' || |Rest(s)| + 1 <= max
  {
    assert (s + [c])[..|s|] == s;
    var p, q := Pieces(s), Pieces(s + [c]);
    if c == '\n' {
      forall i | 0 <= i < |q| ensures |q[i]| <= max { if i < |p| { assert q[i] == p[i]; } }
    } else {
      assert q[|q| - 1] == Rest(s) + [c] && |q| == |p|;
      forall i | 0 <= i < |p| - 1 ensures |q[i]| <= max { assert q[i] == p[i]; }
    }
  }

  /** The character that makes a piece too long is refused when it comes alone. */
  lemma OverflowFails(f: Framer, s: string, c: char, max: nat)
    requires Framed(f, s) && Fits(s, max) && !Fits(s + [c], max)
    ensures Data(f, [c], max).failures == 1
  {
    RestIsOnePiece(s);
    FitsNext(s, c, max);
  }

  lemma {:induction false} CharsFail(s: string, max: nat)
    requires !Fits(s, max)
    ensures Feed(Empty(), Chars(s), max).failures > 0
  {
    if s == [] {
      assert Pieces(s) == [""];
    } else {
      var last := |s| - 1;
      var before := s[..last];
      assert Chars(s)[..last] == Chars(before) && Chars(s)[last] == [s[last]] && s == before + [s[last]];
      if Fits(before, max) {
        JoinChars(before);
        FeedFits(Chars(before), max);
        OverflowFails(Feed(Empty(), Chars(before), max), before, s[last], max);
      } else {
        CharsFail(before, max);
        DataKeepsFailures(Feed(Empty(), Chars(before), max), [s[last]], max);
      }
    }
  }

  /** A stream is refused under no split whatever exactly when its lines, carriage return included, fit. */
  lemma NeverRefusedIff(s: string, max: nat)
    ensures (forall chunks :: Join(chunks) == s ==> Feed(Empty(), chunks, max).failures == 0) <==> Fits(s, max)
  {
    if Fits(s, max) {
      forall chunks | Join(chunks) == s ensures Feed(Empty(), chunks, max).failures == 0 { FeedFits(chunks, max); }
    } else {
      JoinChars(s);
      CharsFail(s, max);
    }
  }

  lemma FeedOne(chunk: string, max: nat)
    ensures Feed(Empty(), [chunk], max) == Data(Empty(), chunk, max)
  {
    assert [chunk][..0] == [];
  }

  lemma WholePasses(text: string, max: nat)
    requires |text| == max && '\n' !in text
    ensures Feed(Empty(), [text + "\r\n"], max) == Framer("", [text], 0)
  {
    var whole := text + "\r\n";
    FeedOne(whole, max);
    assert "" + whole == whole && '\n' in whole;
    WholeDrains(text, max);
  }

  lemma WholeDrains(text: string, max: nat)
    requires |text| == max && '\n' !in text
    ensures Drain(Framer(text + "\r\n", [], 0), max) == Framer("", [text], 0)
  {
    var whole := text + "\r\n";
    var line := whole[..max + 1];
    assert line == text + "\r" && whole[max + 1] == '\n' && whole[max + 2..] == "";
    NewlineAt(whole, max + 1);
    assert StripCr(line) == text && [] + [text] == [text];
    DrainStep(Framer(whole, [], 0), max + 1, max);
  }

  lemma ApartFails(text: string, max: nat)
    requires |text| == max && '\n' !in text
    ensures Feed(Empty(), [text + "\r", "\n"], max).failures > 0
  {
    var line := text + "\r";
    var two := [line, "\n"];
    assert two[..1] == [line] && "" + line == line;
    FeedOne(line, max);
    DataKeepsFailures(Data(Empty(), line, max), "\n", max);
  }

  lemma JoinSnoc(chunks: seq<string>, chunk: string)
    ensures Join(chunks + [chunk]) == Join(chunks) + chunk
  {
    assert (chunks + [chunk])[..|chunks|] == chunks;
  }

  lemma SameStream(a: string, b: string)
    ensures Join([a + b]) == Join([a, b])
  {
    JoinSnoc([], a + b);
    JoinSnoc([], a);
    JoinSnoc([a], b);
    assert [] + [a + b] == [a + b] && [] + [a] == [a] && [a] + [b] == [a, b];
  }

  /** So the split does decide: a line of exactly the limit, ended by a carriage return and a newline, passes whole and is refused when its newline comes alone. */
  lemma SplitDecides(text: string, max: nat)
    requires |text| == max && '\n' !in text
    ensures Join([text + "\r\n"]) == Join([text + "\r", "\n"])
    ensures Feed(Empty(), [text + "\r\n"], max) == Framer("", [text], 0)
    ensures Feed(Empty(), [text + "\r", "\n"], max).failures > 0
  {
    WholePasses(text, max);
    ApartFails(text, max);
    SameStream(text + "\r", "\n");
    assert (text + "\r") + "\n" == text + "\r\n";
  }

  lemma {:induction false} NewlineAt(s: string, n: nat)
    requires n < |s| && s[n] == '\n' && '\n' !in s[..n]
    ensures Newline(s) == n
  {
    if n > 0 {
      assert s[..n][0] == s[0] && s[1..][..n - 1] == s[..n][1..];
      NewlineAt(s[1..], n - 1);
    }
  }

  // ---------------------------------------------------------------- as it runs

  class StdinReader {
    const max: nat
    var inputBuffer: string
    var dispatched: seq<string>
    var failures: nat

    function State(): Framer
      reads this
    {
      Framer(inputBuffer, dispatched, failures)
    }

    constructor (max: nat)
      ensures this.max == max && State() == Empty()
    {
      this.max, inputBuffer, dispatched, failures := max, "", [], 0;
    }

    method OnData(chunk: string)
      modifies this
      ensures State() == Data(old(State()), chunk, max)
    {
      inputBuffer := inputBuffer + chunk;
      if |inputBuffer| > max && '\n' !in inputBuffer {
        inputBuffer := "";
        failures := failures + 1;
        return;
      }
      ghost var whole := Drain(State(), max);
      var n := Newline(inputBuffer);
      while n != |inputBuffer|
        invariant n == Newline(inputBuffer) && Drain(State(), max) == whole
        decreases |inputBuffer|
      {
        var line := StripCr(inputBuffer[..n]);
        inputBuffer := inputBuffer[n + 1..];
        if |line| > max {
          failures := failures + 1;
          return;
        }
        dispatched := dispatched + [line];
        n := Newline(inputBuffer);
      }
    }

    method OnEnd()
      modifies this
      ensures State() == End(old(State()))
    {
      if !Blank(inputBuffer) { dispatched := dispatched + [StripCr(inputBuffer)]; }
      inputBuffer := "";
    }
  }
}
