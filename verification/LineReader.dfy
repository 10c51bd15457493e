/**
 The text of the chat stream: it is gathered in a buffer, and every complete line is parsed as soon as
 its end arrives.
 */
module LineReader {
  import opened Text

  /** What `JSON.parse` and the two field reads make of a line: an exception, a delta, or nothing to show. */
  datatype Parsed = Malformed | Delta(text: string) | Other

  type Parser = string -> Parsed

  datatype Outcome = Outcome(reply: string, rest: string, malformed: bool)

  /** The index of the first line end, or the length of the text when it has none. */
  function FirstBreak(s: string): (n: nat)
    ensures n <= |s|
    ensures forall i :: 0 <= i < n ==> s[i] != '\n'
    ensures n < |s| ==> s[n] == '\n'
  {
    if s == [] || s[0] == '\n' then 0 else 1 + FirstBreak(s[1..])
  }

  function Concat(parts: seq<string>): string {
    if parts == [] then "" else parts[0] + Concat(parts[1..])
  }

  // ---------------------------------------------------------------- the whole text, line by line

  function EndsLine(text: string): bool {
    text != "" && text[|text| - 1] == '\n'
  }

  /** The complete lines, without their line ends. */
  function Lines(text: string): seq<string> {
    if text == "" then []
    else
      var before := text[..|text| - 1];
      if EndsLine(text) then Lines(before) + [Tail(before)] else Lines(before)
  }

  /** The text after the last line end. */
  function Tail(text: string): string {
    if text == "" || EndsLine(text) then "" else Tail(text[..|text| - 1]) + [text[|text| - 1]]
  }

  function IsMalformed(line: string, parse: Parser): bool {
    Trim(line) != "" && parse(Trim(line)).Malformed?
  }

  function Shown(line: string, parse: Parser): string {
    if Trim(line) != "" && parse(Trim(line)).Delta? then parse(Trim(line)).text else ""
  }

  predicate HasMalformed(lines: seq<string>, parse: Parser) {
    exists i :: 0 <= i < |lines| && IsMalformed(lines[i], parse)
  }

  /** The deltas of the non-blank lines before the first malformed one. */
  function Reply(lines: seq<string>, parse: Parser): string {
    if lines == [] || IsMalformed(lines[0], parse) then ""
    else Shown(lines[0], parse) + Reply(lines[1..], parse)
  }

  // ---------------------------------------------------------------- the inner loop

  /** The inner loop on a buffer: what it appends, what it leaves, and whether a line stopped it. */
  function Drain(buffer: string, parse: Parser): Outcome
    decreases |buffer|
  {
    var n := FirstBreak(buffer);
    if n == |buffer| then Outcome("", buffer, false)
    else if IsMalformed(buffer[..n], parse) then Outcome("", buffer[n + 1..], true)
    else
      var later := Drain(buffer[n + 1..], parse);
      later.(reply := Shown(buffer[..n], parse) + later.reply)
  }

  lemma {:induction false} LinesOfFirst(line: string, rest: string)
    requires forall i :: 0 <= i < |line| ==> line[i] != '\n'
    ensures Lines(line + ['\n'] + rest) == [line] + Lines(rest)
    ensures Tail(line + ['\n'] + rest) == Tail(rest)
    decreases |rest|
  {
    var text := line + ['\n'] + rest;
    if rest == [] {
      assert text[..|text| - 1] == line;
      NoLines(line);
    } else {
      var shorter := rest[..|rest| - 1];
      assert text[..|text| - 1] == line + ['\n'] + shorter;
      LinesOfFirst(line, shorter);
    }
  }

  lemma {:induction false} NoLines(line: string)
    requires forall i :: 0 <= i < |line| ==> line[i] != '\n'
    ensures Lines(line) == [] && Tail(line) == line
  {
    if line != "" {
      NoLines(line[..|line| - 1]);
    }
  }

  /** Cutting the text at its line ends loses nothing. */
  lemma {:induction false} LinesRebuild(text: string)
    ensures Concat(Terminated(Lines(text))) + Tail(text) == text
    ensures forall i :: 0 <= i < |Lines(text)| ==> '\n' !in Lines(text)[i]
    ensures '\n' !in Tail(text)
  {
    if text != "" {
      var n := |text| - 1;
      var before, last := text[..n], [text[n]];
      LinesRebuild(before);
      assert text == before + last;
      var lines, tail := Lines(before), Tail(before);
      if EndsLine(text) {
        assert Lines(text) == lines + [tail] && Tail(text) == "";
        hide Lines, Tail;
        assert Terminated(lines + [tail]) == Terminated(lines) + [tail + ['\n']];
        ConcatAppend(Terminated(lines), tail + ['\n']);
        Associates(Concat(Terminated(lines)), tail, last);
      } else {
        assert Lines(text) == lines && Tail(text) == tail + last;
        hide Lines, Tail;
        Associates(Concat(Terminated(lines)), tail, last);
      }
    }
  }

  function Terminated(lines: seq<string>): seq<string> {
    seq(|lines|, i requires 0 <= i < |lines| => lines[i] + ['\n'])
  }

  lemma {:induction false} ConcatAppend(parts: seq<string>, last: string)
    ensures Concat(parts + [last]) == Concat(parts) + last
  {
    if parts == [] {
      assert parts + [last] == [last];
    } else {
      assert (parts + [last])[1..] == parts[1..] + [last];
      ConcatAppend(parts[1..], last);
    }
  }

  /** The inner loop appends the deltas of the complete lines and leaves the text after the last line end. */
  lemma {:induction false} DrainExactly(buffer: string, parse: Parser)
    ensures var o := Drain(buffer, parse);
            && o.reply == Reply(Lines(buffer), parse)
            && (o.malformed <==> HasMalformed(Lines(buffer), parse))
            && (!o.malformed ==> o.rest == Tail(buffer))
    decreases |buffer|
  {
    var n := FirstBreak(buffer);
    if n == |buffer| {
      NoLines(buffer);
    } else {
      var line, rest := buffer[..n], buffer[n + 1..];
      assert buffer == line + ['\n'] + rest;
      LinesOfFirst(line, rest);
      var lines := Lines(buffer);
      assert lines[0] == line && lines[1..] == Lines(rest);
      if !IsMalformed(line, parse) {
        DrainExactly(rest, parse);
        assert HasMalformed(lines, parse) <==> HasMalformed(lines[1..], parse) by {
          forall i | 0 <= i < |lines[1..]| ensures lines[1..][i] == lines[i + 1] {}
        }
      }
    }
  }

  /** Draining before more text arrives changes nothing. */
  lemma {:induction false} DrainInTwo(a: string, b: string, parse: Parser)
    ensures var first, whole := Drain(a, parse), Drain(a + b, parse);
            if first.malformed then whole.malformed && whole.reply == first.reply
            else
              var second := Drain(first.rest + b, parse);
              whole == Outcome(first.reply + second.reply, second.rest, second.malformed)
    decreases |a|
  {
    hide IsMalformed, Shown, Drain;
    var n := FirstBreak(a);
    if n < |a| {
      DrainLine(a, parse);
      DrainLineMore(a, b, parse);
      if !IsMalformed(a[..n], parse) {
        DrainInTwo(a[n + 1..], b, parse);
        hide FirstBreak;
        var mid := Drain(a[n + 1..], parse);
        if !mid.malformed {
          Associates(Shown(a[..n], parse), mid.reply, Drain(mid.rest + b, parse).reply);
        }
      }
    } else {
      DrainOpen(a, parse);
    }
  }

  lemma Associates(x: string, y: string, z: string)
    ensures x + (y + z) == (x + y) + z
  {
  }

  lemma DrainOpen(a: string, parse: Parser)
    requires FirstBreak(a) == |a|
    ensures Drain(a, parse) == Outcome("", a, false)
  {
  }

  lemma DrainLine(a: string, parse: Parser)
    requires FirstBreak(a) < |a|
    ensures var n := FirstBreak(a);
            var later := Drain(a[n + 1..], parse);
            Drain(a, parse) == if IsMalformed(a[..n], parse) then Outcome("", a[n + 1..], true)
                               else Outcome(Shown(a[..n], parse) + later.reply, later.rest, later.malformed)
  {
  }

  lemma DrainLineMore(a: string, b: string, parse: Parser)
    requires FirstBreak(a) < |a|
    ensures var n := FirstBreak(a);
            var later := Drain(a[n + 1..] + b, parse);
            Drain(a + b, parse) == if IsMalformed(a[..n], parse) then Outcome("", a[n + 1..] + b, true)
                                   else Outcome(Shown(a[..n], parse) + later.reply, later.rest, later.malformed)
  {
    hide IsMalformed, Shown, Drain;
    var n := FirstBreak(a);
    SameBreak(a, b);
    assert (a + b)[..n] == a[..n] && (a + b)[n + 1..] == a[n + 1..] + b;
    DrainLine(a + b, parse);
  }

  lemma DrainNothing(parse: Parser)
    ensures Drain("", parse) == Outcome("", "", false)
    ensures Reply(Lines(""), parse) == "" && Reply([], parse) == "" && !HasMalformed([], parse)
  {
  }

  lemma {:induction false} SameBreak(a: string, b: string)
    requires FirstBreak(a) < |a|
    ensures FirstBreak(a + b) == FirstBreak(a)
  {
    if a[0] != '\n' {
      assert (a + b)[1..] == a[1..] + b;
      SameBreak(a[1..], b);
    }
  }

  // ---------------------------------------------------------------- later text and the last line

  lemma {:induction false} ConcatSplit(parts: seq<string>, i: nat)
    requires i <= |parts|
    ensures Concat(parts) == Concat(parts[..i]) + Concat(parts[i..])
  {
    if i == 0 {
      assert parts[..0] == [] && parts[0..] == parts;
    } else {
      assert parts[1..][..i - 1] == parts[..i][1..] && parts[1..][i - 1..] == parts[i..];
      ConcatSplit(parts[1..], i - 1);
    }
  }

  /** Text that arrives later only ever extends what is shown, and text without a line end shows nothing. */
  lemma LaterTextExtends(a: string, b: string, parse: Parser)
    ensures Reply(Lines(a), parse) <= Reply(Lines(a + b), parse)
    ensures '\n' !in b ==> Reply(Lines(a + b), parse) == Reply(Lines(a), parse)
  {
    DrainExactly(a, parse);
    DrainExactly(a + b, parse);
    DrainInTwo(a, b, parse);
    if '\n' !in b {
      LinesRebuild(a);
      var rest := Drain(a, parse).rest;
      if !Drain(a, parse).malformed {
        assert FirstBreak(rest + b) == |rest + b|;
      }
    }
  }

  lemma {:induction false} ReplyAppend(lines: seq<string>, last: string, parse: Parser)
    ensures Reply(lines + [last], parse)
         == Reply(lines, parse) + (if HasMalformed(lines, parse) || IsMalformed(last, parse) then "" else Shown(last, parse))
  {
    hide IsMalformed, Shown;
    if lines == [] {
      assert [last][1..] == [] && Reply([], parse) == "";
    } else {
      assert (lines + [last])[1..] == lines[1..] + [last];
      ReplyAppend(lines[1..], last, parse);
      assert HasMalformed(lines, parse) <==> IsMalformed(lines[0], parse) || HasMalformed(lines[1..], parse) by {
        forall i | 1 <= i < |lines| ensures lines[i] == lines[1..][i - 1] {}
      }
    }
  }

  /**
   A last line without its line end is not shown. Nothing is lost by that exactly when a malformed line
   came before it or it has nothing to show.
   */
  lemma LastLineLostExactly(text: string, parse: Parser)
    ensures Reply(Lines(text), parse) == Reply(Lines(text + ['\n']), parse)
            <==> HasMalformed(Lines(text), parse) || Shown(Tail(text), parse) == ""
  {
    hide IsMalformed, HasMalformed, Reply;
    assert (text + ['\n'])[..|text|] == text;
    assert Lines(text + ['\n']) == Lines(text) + [Tail(text)];
    ReplyAppend(Lines(text), Tail(text), parse);
    MalformedShowsNothing(Tail(text), parse);
  }

  lemma MalformedShowsNothing(line: string, parse: Parser)
    ensures IsMalformed(line, parse) ==> Shown(line, parse) == ""
  {
  }
}
