/**
 The chat: a reply streams in while the user may open another thread, begin a new chat or send again, and
 each delta goes to whatever message is last when it arrives.
 */
module ChatRuns {
  import opened Text
  import opened LineReader

  datatype Message = Message(fromUser: bool, content: string)

  datatype Thread = Thread(title: string, messages: seq<Message>)

  /** The reply still streaming, and the text it holds back until its line is complete. */
  datatype Stream = Idle | Streaming(buffer: string)

  datatype Chat = Chat(messages: seq<Message>, prompt: string, toast: bool, threads: seq<Thread>, stream: Stream)

  /** Failed: the response was refused, a read failed, or the refresh after the last read did. */
  datatype End = Done | Failed | Aborted

  datatype Event =
    | Typed(prompt: string)
    | Sent(canSend: bool, connected: bool)
    | ChunkRead(text: string)
    | StreamEnds(end: End)
    | ThreadOpened(thread: Option<seq<Message>>)
    | NewChat

  /** The messages with more text at the end of the last one. */
  function Extended(messages: seq<Message>, more: string): seq<Message>
    requires messages != []
  {
    var last := messages[|messages| - 1];
    messages[..|messages| - 1] + [last.(content := last.content + more)]
  }

  /** Every delta goes to the last message; without messages it is dropped. */
  function Appended(messages: seq<Message>, more: string): seq<Message> {
    if messages == [] then [] else Extended(messages, more)
  }

  const TITLE_LENGTH := 34

  function FirstFromUser(messages: seq<Message>): string {
    if messages == [] then "Conversación"
    else if messages[0].fromUser then messages[0].content
    else FirstFromUser(messages[1..])
  }

  function TitleOf(messages: seq<Message>): string {
    var first := FirstFromUser(messages);
    if |first| <= TITLE_LENGTH then first else first[..TITLE_LENGTH]
  }

  function Kept(messages: seq<Message>): seq<Thread> {
    if messages == [] then [] else [Thread(TitleOf(messages), messages)]
  }

  predicate Sends(c: Chat, e: Event) {
    e.Sent? && Trim(c.prompt) != "" && e.canSend && e.connected
  }

  /** A send aborts the reply before it, whose reads then fail and append nothing. */
  function Step(c: Chat, e: Event, parse: Parser): Chat {
    match e
    case Typed(prompt) => c.(prompt := prompt)
    case Sent(canSend, connected) =>
      if Sends(c, e) then
        c.(messages := c.messages + [Message(true, Trim(c.prompt)), Message(false, "")], prompt := "", stream := Streaming(""))
      else c.(toast := c.toast || (Trim(c.prompt) != "" && !canSend))
    case ChunkRead(text) =>
      if c.stream.Idle? then c
      else
        var o := Drain(c.stream.buffer + text, parse);
        c.(messages := Appended(c.messages, o.reply),
           toast := c.toast || o.malformed,
           stream := if o.malformed then Idle else Streaming(o.rest))
    case StreamEnds(end) => if c.stream.Idle? then c else c.(stream := Idle, toast := c.toast || end == Failed)
    case ThreadOpened(thread) => if thread.Some? then c.(messages := thread.value) else c.(toast := true)
    case NewChat => c.(messages := [], prompt := "", threads := Kept(c.messages) + c.threads)
  }

  predicate IsSwitch(e: Event) {
    (e.ThreadOpened? && e.thread.Some?) || e.NewChat?
  }

  function Run(c: Chat, events: seq<Event>, parse: Parser): Chat
    decreases |events|
  {
    if events == [] then c else Step(Run(c, events[..|events| - 1], parse), events[|events| - 1], parse)
  }

  // ---------------------------------------------------------------- appending

  lemma ExtendedTwice(messages: seq<Message>, a: string, b: string)
    requires messages != []
    ensures Extended(Extended(messages, a), b) == Extended(messages, a + b)
    ensures Extended(messages, "") == messages
  {
    var last := messages[|messages| - 1];
    Associates(last.content, a, b);
    assert last.content + "" == last.content;
  }

  lemma AppendedTwice(messages: seq<Message>, a: string, b: string)
    ensures Appended(Appended(messages, a), b) == Appended(messages, a + b)
    ensures Appended(messages, "") == messages
    ensures |Appended(messages, a)| == |messages|
  {
    if messages != [] {
      ExtendedTwice(messages, a, b);
    }
  }

  // ---------------------------------------------------------------- from one send to the next

  predicate NoSend(events: seq<Event>) {
    forall i :: 0 <= i < |events| ==> !events[i].Sent?
  }

  predicate NoSwitch(events: seq<Event>) {
    forall i :: 0 <= i < |events| ==> !IsSwitch(events[i])
  }

  predicate HasEnded(events: seq<Event>) {
    exists i :: 0 <= i < |events| && events[i].StreamEnds?
  }

  /** The text that the stream has read. */
  function TextRead(events: seq<Event>): string
    decreases |events|
  {
    if events == [] then ""
    else
      var before, last := events[..|events| - 1], events[|events| - 1];
      TextRead(before) + (if last.ChunkRead? && !HasEnded(before) then last.text else "")
  }

  /** The list of messages shown, as it was when it was first shown since the send. */
  function Base(sent: seq<Message>, events: seq<Event>): seq<Message>
    decreases |events|
  {
    if events == [] then sent
    else
      var last := events[|events| - 1];
      if last.NewChat? then []
      else if IsSwitch(last) then last.thread.value
      else Base(sent, events[..|events| - 1])
  }

  /** The part of the reply that had come when the list now shown was first shown. */
  function ShownBefore(events: seq<Event>, parse: Parser): string
    decreases |events|
  {
    if events == [] then ""
    else
      var before := events[..|events| - 1];
      if IsSwitch(events[|events| - 1]) then Drain(TextRead(before), parse).reply else ShownBefore(before, parse)
  }

  ghost predicate GetsItsPart(d: Chat, base: seq<Message>, shown: string, o: Outcome, ended: bool) {
    && shown <= o.reply
    && d.messages == Appended(base, o.reply[|shown|..])
    && d.stream == if ended || o.malformed then Idle else Streaming(o.rest)
  }

  lemma ChunkAddsItsPart(d: Chat, base: seq<Message>, shown: string, text: string, more: string, ended: bool, parse: Parser)
    requires GetsItsPart(d, base, shown, Drain(text, parse), ended)
    ensures GetsItsPart(Step(d, ChunkRead(more), parse), base, shown, Drain(if ended then text else text + more, parse), ended)
  {
    hide Drain, Appended;
    DrainInTwo(text, more, parse);
    var o := Drain(text, parse);
    if !ended && !o.malformed {
      var next := Drain(o.rest + more, parse).reply;
      assert (o.reply + next)[|shown|..] == o.reply[|shown|..] + next;
      AppendedTwice(base, o.reply[|shown|..], next);
    }
  }

  lemma SwitchStartsEmpty(d: Chat, base: seq<Message>, shown: string, o: Outcome, ended: bool, e: Event, parse: Parser)
    requires GetsItsPart(d, base, shown, o, ended) && IsSwitch(e)
    ensures GetsItsPart(Step(d, e, parse), if e.NewChat? then [] else e.thread.value, o.reply, o, ended)
  {
    hide Drain, Appended, Kept;
    assert o.reply[|o.reply|..] == "";
    AppendedTwice(if e.NewChat? then [] else e.thread.value, "", "");
  }

  lemma StartsReading(w: Chat, parse: Parser)
    requires w.stream == Streaming("")
    ensures GetsItsPart(w, w.messages, "", Drain("", parse), false)
  {
    DrainNothing(parse);
    hide Appended;
    AppendedTwice(w.messages, "", "");
  }

  lemma HasEndedGrows(before: seq<Event>, e: Event)
    ensures HasEnded(before + [e]) <==> HasEnded(before) || e.StreamEnds?
  {
    assert (before + [e])[|before|] == e;
    forall i | 0 <= i < |before| ensures (before + [e])[i] == before[i] {}
  }

  /**
   From one send to the next, with threads opened and chats begun in between, every list of messages gets
   exactly the part of the reply that comes while it is shown, at the end of its last message.
   */
  lemma {:induction false} EachListGetsItsPart(w: Chat, events: seq<Event>, parse: Parser)
    requires w.stream == Streaming("") && NoSend(events)
    ensures GetsItsPart(Run(w, events, parse), Base(w.messages, events), ShownBefore(events, parse),
                        Drain(TextRead(events), parse), HasEnded(events))
    decreases |events|
  {
    if events == [] {
      StartsReading(w, parse);
    } else {
      var n := |events| - 1;
      var before, e := events[..n], events[n];
      assert events == before + [e];
      HasEndedGrows(before, e);
      EachListGetsItsPart(w, before, parse);
      hide Drain, Appended, HasEnded;
      var d, text := Run(w, before, parse), TextRead(before);
      assert text + "" == text;
      if e.ChunkRead? {
        hide GetsItsPart, Step;
        ChunkAddsItsPart(d, Base(w.messages, before), ShownBefore(before, parse), text, e.text, HasEnded(before), parse);
      } else if IsSwitch(e) {
        hide GetsItsPart, Step;
        SwitchStartsEmpty(d, Base(w.messages, before), ShownBefore(before, parse), Drain(text, parse), HasEnded(before), e, parse);
      } else {
        hide Trim, Kept;
      }
    }
  }

  lemma {:induction false} BaseWithoutSwitch(sent: seq<Message>, events: seq<Event>, parse: Parser)
    requires NoSwitch(events)
    ensures Base(sent, events) == sent && ShownBefore(events, parse) == ""
    decreases |events|
  {
    if events != [] {
      BaseWithoutSwitch(sent, events[..|events| - 1], parse);
    }
  }

  lemma OwnMessage(messages: seq<Message>, prompt: string, reply: string)
    ensures Appended(messages + [Message(true, prompt), Message(false, "")], reply)
         == messages + [Message(true, prompt), Message(false, reply)]
  {
    var all := messages + [Message(true, prompt), Message(false, "")];
    assert all[..|all| - 1] == messages + [Message(true, prompt)];
    assert "" + reply == reply;
  }

  /** Until a thread is opened or a chat begun, the reply's own message holds the deltas of all complete lines read. */
  lemma OwnReply(c: Chat, e: Event, events: seq<Event>, parse: Parser)
    requires Sends(c, e) && NoSend(events) && NoSwitch(events)
    ensures Run(Step(c, e, parse), events, parse).messages
         == c.messages + [Message(true, Trim(c.prompt)), Message(false, Reply(Lines(TextRead(events)), parse))]
  {
    var w := Step(c, e, parse);
    EachListGetsItsPart(w, events, parse);
    DrainExactly(TextRead(events), parse);
    hide Drain, Reply, Lines, Run, TextRead, Appended, HasMalformed, Trim;
    BaseWithoutSwitch(w.messages, events, parse);
    var reply := Reply(Lines(TextRead(events)), parse);
    assert reply[0..] == reply;
    OwnMessage(c.messages, Trim(c.prompt), reply);
  }

  lemma {:induction false} BaseAfterSwitch(sent: seq<Message>, before: seq<Event>, e: Event, after: seq<Event>, parse: Parser)
    requires IsSwitch(e) && NoSwitch(after)
    ensures Base(sent, before + [e] + after) == if e.NewChat? then [] else e.thread.value
    ensures ShownBefore(before + [e] + after, parse) == Drain(TextRead(before), parse).reply
    decreases |after|
  {
    hide Drain;
    var all := before + [e] + after;
    if after == [] {
      assert all == before + [e] && all[..|all| - 1] == before;
    } else {
      var n := |after| - 1;
      assert all[..|all| - 1] == before + [e] + after[..n] && all[|all| - 1] == after[n];
      BaseAfterSwitch(sent, before, e, after[..n], parse);
    }
  }

  /**
   A thread opened while the reply streams splits it: its own message keeps what was shown so far, and the
   rest goes to the end of the thread's last message. So the own message has the whole reply exactly when
   the thread still is what it was when it was opened.
   */
  lemma SwitchSplitsReply(c: Chat, e: Event, before: seq<Event>, thread: seq<Message>, after: seq<Event>, parse: Parser)
    requires Sends(c, e) && NoSend(before) && NoSwitch(before) && NoSend(after) && NoSwitch(after) && thread != []
    ensures var w, events := Step(c, e, parse), before + [ThreadOpened(Some(thread))] + after;
            var own, whole := Reply(Lines(TextRead(before)), parse), Reply(Lines(TextRead(events)), parse);
            && Run(w, before, parse).messages == c.messages + [Message(true, Trim(c.prompt)), Message(false, own)]
            && own <= whole
            && Run(w, events, parse).messages == Extended(thread, whole[|own|..])
            && (own == whole <==> Run(w, events, parse).messages == thread)
  {
    var w, events := Step(c, e, parse), before + [ThreadOpened(Some(thread))] + after;
    OwnReply(c, e, before, parse);
    assert NoSend(events) by {
      forall i | 0 <= i < |events| ensures !events[i].Sent? {
        assert events[i] == if i < |before| then before[i] else if i == |before| then ThreadOpened(Some(thread)) else after[i - |before| - 1];
      }
    }
    EachListGetsItsPart(w, events, parse);
    BaseAfterSwitch(w.messages, before, ThreadOpened(Some(thread)), after, parse);
    DrainExactly(TextRead(before), parse);
    DrainExactly(TextRead(events), parse);
    hide Drain, Reply, Lines, Run, TextRead, HasMalformed, Trim, Base, ShownBefore, NoSend, NoSwitch, HasEnded;
    var own, whole := Reply(Lines(TextRead(before)), parse), Reply(Lines(TextRead(events)), parse);
    ExtendedTwice(thread, "", "");
    ExtendedSame(thread, whole[|own|..]);
  }

  lemma ExtendedSame(messages: seq<Message>, more: string)
    requires messages != []
    ensures Extended(messages, more) == messages <==> more == ""
  {
    var n := |messages| - 1;
    var last := messages[n];
    assert Extended(messages, more)[n].content == last.content + more;
    assert |last.content + more| == |last.content| + |more|;
    assert messages == messages[..n] + [last];
    if more == "" {
      assert last.content + more == last.content;
    }
  }

  // ---------------------------------------------------------------- what is kept, and what is told

  /** The first thing the user said, and where. */
  predicate IsFirstQuestion(messages: seq<Message>, i: int) {
    0 <= i < |messages| && messages[i].fromUser && forall j :: 0 <= j < i ==> !messages[j].fromUser
  }

  /** A thread goes under the first 34 characters of its first question. */
  lemma {:induction false} TitleIsFirstQuestion(messages: seq<Message>, i: int)
    requires IsFirstQuestion(messages, i)
    ensures FirstFromUser(messages) == messages[i].content
    ensures TitleOf(messages) <= messages[i].content
    ensures |TitleOf(messages)| == if |messages[i].content| < 34 then |messages[i].content| else 34
    decreases i
  {
    if i > 0 {
      TitleIsFirstQuestion(messages[1..], i - 1);
    }
  }

  lemma {:induction false} TitleWithoutQuestion(messages: seq<Message>)
    requires forall i :: 0 <= i < |messages| ==> !messages[i].fromUser
    ensures TitleOf(messages) == "Conversación"
  {
    if messages != [] {
      TitleWithoutQuestion(messages[1..]);
    }
  }

  ghost predicate EndsWith<T>(s: seq<T>, t: seq<T>) {
    |s| >= |t| && s[|s| - |t|..] == t
  }

  /** What was kept stays, in its order, whatever happens. */
  lemma {:induction false} ThreadsStay(c: Chat, events: seq<Event>, parse: Parser)
    ensures EndsWith(Run(c, events, parse).threads, c.threads)
    decreases |events|
  {
    if events != [] {
      ThreadsStay(c, events[..|events| - 1], parse);
      hide TitleOf, Drain, Appended, Trim;
    }
  }

  /** A new chat keeps what was shown, if anything, in front of the other threads, for the rest of every run. */
  lemma NewChatKeepsThread(c: Chat, before: seq<Event>, after: seq<Event>, parse: Parser)
    ensures var d := Run(c, before, parse);
            EndsWith(Run(Step(d, NewChat, parse), after, parse).threads,
                     if d.messages == [] then d.threads else [Thread(TitleOf(d.messages), d.messages)] + d.threads)
  {
    var d := Run(c, before, parse);
    ThreadsStay(Step(d, NewChat, parse), after, parse);
    assert [] + d.threads == d.threads;
  }

  /** A question without a model, a malformed line, a stream that fails, or a thread that cannot be read. */
  predicate GoesWrong(d: Chat, e: Event, parse: Parser) {
    match e
    case Sent(canSend, _) => Trim(d.prompt) != "" && !canSend
    case ChunkRead(text) => d.stream.Streaming? && HasMalformed(Lines(d.stream.buffer + text), parse)
    case StreamEnds(end) => d.stream.Streaming? && end == Failed
    case ThreadOpened(thread) => thread.None?
    case _ => false
  }

  ghost predicate WentWrong(c: Chat, events: seq<Event>, parse: Parser) {
    exists k :: 0 <= k < |events| && GoesWrong(Run(c, events[..k], parse), events[k], parse)
  }

  lemma WentWrongGrows(c: Chat, events: seq<Event>, parse: Parser)
    requires events != []
    ensures var before, e := events[..|events| - 1], events[|events| - 1];
            WentWrong(c, events, parse) <==> WentWrong(c, before, parse) || GoesWrong(Run(c, before, parse), e, parse)
  {
    hide GoesWrong, Run;
    var n := |events| - 1;
    forall k | 0 <= k < n ensures events[..n][..k] == events[..k] && events[..n][k] == events[k] {}
    if WentWrong(c, events[..n], parse) {
      var k :| 0 <= k < n && GoesWrong(Run(c, events[..n][..k], parse), events[..n][k], parse);
      assert GoesWrong(Run(c, events[..k], parse), events[k], parse);
    }
  }

  /** The user is told exactly when something has gone wrong. */
  lemma {:induction false} ToldExactly(c: Chat, events: seq<Event>, parse: Parser)
    ensures Run(c, events, parse).toast <==> c.toast || WentWrong(c, events, parse)
    decreases |events|
  {
    if events != [] {
      hide Step, GoesWrong, WentWrong;
      ToldExactly(c, events[..|events| - 1], parse);
      ToldByOne(Run(c, events[..|events| - 1], parse), events[|events| - 1], parse);
      WentWrongGrows(c, events, parse);
    }
  }

  lemma ToldByOne(d: Chat, e: Event, parse: Parser)
    ensures Step(d, e, parse).toast <==> d.toast || GoesWrong(d, e, parse)
    ensures e.ChunkRead? && GoesWrong(d, e, parse) ==> Step(d, e, parse).stream.Idle?
  {
    if e.ChunkRead? && d.stream.Streaming? {
      DrainExactly(d.stream.buffer + e.text, parse);
    }
    hide Drain, Trim, Appended, HasMalformed, Lines, Reply;
  }

  // ---------------------------------------------------------------- the component

  /** How the response goes: refused, or chunks of decoded text ended by `done` or by a failed read. */
  datatype Response = Refused | Stream(chunks: seq<string>, done: bool)

  class Conversation {
    var messages: seq<Message>
    var prompt: string
    var toast: bool
    var threads: seq<Thread>
    var stream: Stream

    ghost function Now(): Chat reads this {
      Chat(messages, prompt, toast, threads, stream)
    }

    constructor ()
      ensures Now() == Chat([], "", false, [], Idle)
    {
      messages, prompt, toast, threads, stream := [], "", false, [], Idle;
    }

    method OpenThread(thread: Option<seq<Message>>, ghost parse: Parser)
      modifies this`messages, this`toast
      ensures Now() == Step(old(Now()), ThreadOpened(thread), parse)
    {
      if thread.Some? {
        messages := thread.value;
      } else {
        toast := true;
      }
    }

    method BeginNewChat(ghost parse: Parser)
      modifies this`messages, this`prompt, this`threads
      ensures Now() == Step(old(Now()), NewChat, parse)
    {
      if messages != [] {
        threads := [Thread(TitleOf(messages), messages)] + threads;
      } else {
        assert [] + threads == threads;
      }
      messages := [];
      prompt := "";
    }

    /** `send` up to its first await. */
    method BeginSend(canSend: bool, connected: bool, ghost parse: Parser) returns (sent: bool)
      modifies this`messages, this`prompt, this`toast, this`stream
      ensures Now() == Step(old(Now()), Sent(canSend, connected), parse) && sent == Sends(old(Now()), Sent(canSend, connected))
    {
      hide Trim;
      sent := false;
      var userContent := Trim(prompt);
      if userContent == "" {
        return;
      }
      if !canSend {
        toast := true;
        return;
      }
      if !connected {
        return;
      }
      messages := messages + [Message(true, userContent), Message(false, "")];
      prompt := "";
      stream := Streaming("");
      sent := true;
    }

    /** `setMessages(current => current.map(...))` for one delta. */
    method AppendDelta(delta: string)
      modifies this`messages
      ensures messages == Appended(old(messages), delta)
    {
      if messages != [] {
        var last := messages[|messages| - 1];
        messages := messages[|messages| - 1 := last.(content := last.content + delta)];
      }
    }

    /** One read: the buffer is drained, and every delta goes to the last message. */
    method ReadChunk(text: string, parse: Parser)
      requires stream.Streaming?
      modifies this`messages, this`toast, this`stream
      ensures Now() == Step(old(Now()), ChunkRead(text), parse)
    {
      var buffer, malformed := DrainBuffer(stream.buffer + text, parse);
      if malformed {
        toast := true;
        stream := Idle;
      } else {
        stream := Streaming(buffer);
      }
    }

    method DrainBuffer(buffer0: string, parse: Parser) returns (buffer: string, malformed: bool)
      modifies this`messages
      ensures malformed == Drain(buffer0, parse).malformed && buffer == Drain(buffer0, parse).rest
      ensures messages == Appended(old(messages), Drain(buffer0, parse).reply)
    {
      hide IsMalformed, Drain, Appended;
      buffer, malformed := buffer0, false;
      ghost var sofar := "";
      AppendedTwice(messages, "", "");
      var newline := FirstBreak(buffer);
      while newline < |buffer| && !malformed
        invariant newline == FirstBreak(buffer) || malformed
        invariant messages == Appended(old(messages), sofar)
        invariant malformed ==> Drain(buffer0, parse) == Outcome(sofar, buffer, true)
        invariant !malformed ==>
          var d := Drain(buffer, parse); Drain(buffer0, parse) == Outcome(sofar + d.reply, d.rest, d.malformed)
        decreases |buffer|, !malformed
      {
        var raw := buffer[..newline];
        var line := Trim(raw);
        DrainLine(buffer, parse);
        buffer := buffer[newline + 1..];
        if IsMalformed(raw, parse) {
          malformed := true;
        } else {
          if line != "" {
            match parse(line)
            case Delta(text) =>
              AppendedTwice(old(messages), sofar, text);
              AppendDelta(text);
            case _ =>
          }
          Associates(sofar, Shown(raw, parse), Drain(buffer, parse).reply);
          assert sofar + "" == sofar;
          sofar := sofar + Shown(raw, parse);
          newline := FirstBreak(buffer);
        }
      }
      if !malformed {
        DrainOpen(buffer, parse);
        assert sofar + "" == sofar;
      }
    }

    method EndStream(end: End, ghost parse: Parser)
      requires stream.Streaming?
      modifies this`toast, this`stream
      ensures Now() == Step(old(Now()), StreamEnds(end), parse)
    {
      stream := Idle;
      if end == Failed {
        toast := true;
      }
    }

    /**
     An undisturbed send: the reply depends on the chunks only through the text they make up. It is the
     deltas of the complete lines, up to a malformed one; earlier messages never change, and every failure
     is told, that of the final refresh too, unless the request was aborted.
     */
    method Send(canSend: bool, connected: bool, response: Response, aborted: bool, refreshed: bool, parse: Parser) returns (sent: bool, buffer: string)
      modifies this
      ensures sent == (Trim(old(prompt)) != "" && canSend && connected)
      ensures !sent ==> messages == old(messages) && prompt == old(prompt)
                        && toast == (old(toast) || (Trim(old(prompt)) != "" && !canSend))
      ensures sent ==>
        var lines := if response.Stream? then Lines(Concat(response.chunks)) else [];
        && messages == old(messages) + [Message(true, Trim(old(prompt))), Message(false, Reply(lines, parse))]
        && prompt == "" && stream == Idle
        && toast == (old(toast) || HasMalformed(lines, parse)
                     || (!aborted && (response.Refused? || !response.done || !refreshed)))
        && (response.Stream? && !HasMalformed(lines, parse) ==> buffer == Tail(Concat(response.chunks)))
    {
      hide Drain, Lines, Tail, Reply, HasMalformed, Trim;
      buffer := "";
      sent := BeginSend(canSend, connected, parse);
      if !sent {
        return;
      }
      ghost var shown := old(messages) + [Message(true, Trim(old(prompt))), Message(false, "")];
      DrainNothing(parse);
      if response.Refused? {
        EndStream(if aborted then Aborted else Failed, parse);
        return;
      }
      AppendedTwice(shown, "", "");
      var chunks := response.chunks;
      ghost var got := "";
      var i := 0;
      while i < |chunks| && stream != Idle
        invariant 0 <= i <= |chunks| && got == Concat(chunks[..i]) && prompt == ""
        invariant messages == Appended(shown, Drain(got, parse).reply)
        invariant toast == (old(toast) || Drain(got, parse).malformed)
        invariant stream == if Drain(got, parse).malformed then Idle else Streaming(Drain(got, parse).rest)
        decreases |chunks| - i
      {
        hide Appended;
        assert chunks[..i + 1] == chunks[..i] + [chunks[i]];
        ConcatAppend(chunks[..i], chunks[i]);
        DrainInTwo(got, chunks[i], parse);
        AppendedTwice(shown, Drain(got, parse).reply, Drain(stream.buffer + chunks[i], parse).reply);
        got := got + chunks[i];
        ReadChunk(chunks[i], parse);
        i := i + 1;
      }
      ghost var whole := Concat(chunks);
      ConcatSplit(chunks, i);
      DrainInTwo(got, Concat(chunks[i..]), parse);
      if stream != Idle {
        assert chunks[..i] == chunks;
        buffer := stream.buffer;
        EndStream(if response.done && refreshed then Done else if aborted then Aborted else Failed, parse);
      }
      DrainExactly(whole, parse);
      OwnMessage(old(messages), Trim(old(prompt)), Drain(whole, parse).reply);
    }
  }
}
