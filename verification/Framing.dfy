/**
 The serial line into protocol frames. The specification splits the byte stream at newlines;
 the loop works on a fixed buffer, in whatever pieces the driver delivers.
 */
module Framing {
  import opened Vocabulary

  const MAX_MESSAGE: nat := 96 * 1024
  const CAPACITY: nat := MAX_MESSAGE + 2
  const NEWLINE: byte := 10
  const RETURN: byte := 13

  datatype LineEvent = Frame(bytes: seq<byte>) | TooLarge

  function Stripped(line: seq<byte>): seq<byte> {
    if line != [] && line[|line| - 1] == RETURN then Stripped(line[..|line| - 1]) else line
  }

  /** What a terminated line means, however it arrived. */
  function Judge(line: seq<byte>): LineEvent {
    if |line| >= CAPACITY || |Stripped(line)| > MAX_MESSAGE then TooLarge else Frame(Stripped(line))
  }

  datatype Mode = Collecting(line: seq<byte>) | Discarding

  datatype Scanner = Scanner(mode: Mode, events: seq<LineEvent>)

  /** One byte at a time; an unterminated line is given up as soon as it fills the buffer. */
  function Feed(s: Scanner, b: byte): Scanner {
    match s.mode
    case Discarding => if b == NEWLINE then s.(mode := Collecting([])) else s
    case Collecting(line) =>
      if b == NEWLINE then Scanner(Collecting([]), s.events + [Judge(line)])
      else if |line| + 1 >= CAPACITY then Scanner(Discarding, s.events + [TooLarge])
      else s.(mode := Collecting(line + [b]))
  }

  function Scan(bytes: seq<byte>): Scanner {
    if bytes == [] then Scanner(Collecting([]), []) else Feed(Scan(bytes[..|bytes| - 1]), bytes[|bytes| - 1])
  }

  predicate Unbroken(line: seq<byte>) {
    forall i :: 0 <= i < |line| ==> line[i] != NEWLINE
  }

  lemma {:induction false} ScanUnbroken(before: seq<byte>, line: seq<byte>)
    requires Unbroken(line) && Scan(before).mode == Collecting([])
    ensures Scan(before + line) ==
            if |line| < CAPACITY then Scanner(Collecting(line), Scan(before).events)
            else Scanner(Discarding, Scan(before).events + [TooLarge])
  {
    if line == [] {
      assert before + line == before;
    } else {
      var shorter := line[..|line| - 1];
      assert (before + line)[..|before + line| - 1] == before + shorter;
      ScanUnbroken(before, shorter);
      assert line == shorter + [line[|line| - 1]];
    }
  }

  lemma ScanLine(before: seq<byte>, line: seq<byte>)
    requires Unbroken(line) && Scan(before).mode == Collecting([])
    ensures Scan(before + line + [NEWLINE]) == Scanner(Collecting([]), Scan(before).events + [Judge(line)])
  {
    ScanUnbroken(before, line);
    assert (before + line + [NEWLINE])[..|before + line|] == before + line;
  }

  lemma {:induction false} ScanDiscarded(before: seq<byte>, rest: seq<byte>)
    requires Unbroken(rest) && Scan(before).mode == Discarding
    ensures Scan(before + rest) == Scan(before)
    ensures Scan(before + rest + [NEWLINE]) == Scan(before).(mode := Collecting([]))
  {
    assert (before + rest + [NEWLINE])[..|before + rest|] == before + rest;
    if rest == [] {
      assert before + rest == before;
    } else {
      var shorter := rest[..|rest| - 1];
      assert (before + rest)[..|before + rest| - 1] == before + shorter;
      ScanDiscarded(before, shorter);
    }
  }

  lemma {:induction false} ScanOnlyAppends(before: seq<byte>, rest: seq<byte>)
    ensures Scan(before).events <= Scan(before + rest).events
  {
    if rest == [] {
      assert before + rest == before;
    } else {
      var shorter := rest[..|rest| - 1];
      assert (before + rest)[..|before + rest| - 1] == before + shorter;
      ScanOnlyAppends(before, shorter);
    }
  }

  /** Terminated lines, one after the other. */
  function Joined(lines: seq<seq<byte>>): seq<byte> {
    if lines == [] then [] else Joined(lines[..|lines| - 1]) + lines[|lines| - 1] + [NEWLINE]
  }

  function Judged(lines: seq<seq<byte>>): (events: seq<LineEvent>)
    ensures |events| == |lines|
  {
    seq(|lines|, i requires 0 <= i < |lines| => Judge(lines[i]))
  }

  /** Byte by byte is plain line splitting: one event a line, each judged by itself. */
  lemma {:induction false} ScanIsLineSplitting(lines: seq<seq<byte>>, tail: seq<byte>)
    requires forall i :: 0 <= i < |lines| ==> Unbroken(lines[i])
    requires Unbroken(tail)
    ensures Scan(Joined(lines) + tail).events == Judged(lines) + if |tail| < CAPACITY then [] else [TooLarge]
    ensures Scan(Joined(lines)).mode == Collecting([])
    decreases |lines|
  {
    if lines != [] {
      var last := lines[|lines| - 1];
      var earlier := lines[..|lines| - 1];
      ScanIsLineSplitting(earlier, []);
      assert Joined(earlier) + [] == Joined(earlier);
      ScanLine(Joined(earlier), last);
      assert Judged(lines) == Judged(earlier) + [Judge(last)];
    }
    ScanUnbroken(Joined(lines), tail);
  }

  // ----- the session phases -----

  datatype Phase = PreHandshake | StrictPostHandshake | Faulted

  datatype FrameInfo = FrameInfo(valid: bool, hello: bool)

  /** What became of one event: whether the reply was a successful hello, and whether it went out. */
  datatype Outcome = Outcome(event: LineEvent, established: bool, written: bool)

  datatype Rules = Rules(classify: seq<byte> -> FrameInfo, diagnostics: seq<byte> -> bool)

  /** Before the handshake only a valid hello reaches the protocol handler. */
  predicate ReachesHandler(r: Rules, phase: Phase, e: LineEvent) {
    && e.Frame? && phase != Faulted && !r.diagnostics(e.bytes)
    && (phase == PreHandshake ==> r.classify(e.bytes).valid && r.classify(e.bytes).hello)
  }

  function NextPhase(r: Rules, phase: Phase, o: Outcome): Phase {
    if o.event.TooLarge? then
      if !o.written || phase == StrictPostHandshake then Faulted else phase
    else if r.diagnostics(o.event.bytes) then
      if o.written then phase else Faulted
    else if !ReachesHandler(r, phase, o.event) then phase
    else
      var info := r.classify(o.event.bytes);
      if !o.written then Faulted
      else if info.valid && info.hello && o.established then StrictPostHandshake
      else if phase == StrictPostHandshake && !info.valid then Faulted
      else phase
  }

  function PhaseAfter(r: Rules, outcomes: seq<Outcome>): Phase {
    if outcomes == [] then PreHandshake
    else NextPhase(r, PhaseAfter(r, outcomes[..|outcomes| - 1]), outcomes[|outcomes| - 1])
  }

  function EventsOf(outcomes: seq<Outcome>): (events: seq<LineEvent>)
    ensures |events| == |outcomes|
  {
    seq(|outcomes|, i requires 0 <= i < |outcomes| => outcomes[i].event)
  }

  /** Nothing but hellos gets through until one has been answered successfully. */
  lemma {:induction false} OnlyHellosBeforeTheHandshake(r: Rules, outcomes: seq<Outcome>, k: nat)
    requires k < |outcomes| && ReachesHandler(r, PhaseAfter(r, outcomes[..k]), outcomes[k].event)
    requires forall i :: 0 <= i < k ==> !outcomes[i].established
    ensures r.classify(outcomes[k].event.bytes).valid && r.classify(outcomes[k].event.bytes).hello
  {
    NoHandshakeYet(r, outcomes[..k]);
  }

  lemma {:induction false} NoHandshakeYet(r: Rules, outcomes: seq<Outcome>)
    requires forall i :: 0 <= i < |outcomes| ==> !outcomes[i].established
    ensures PhaseAfter(r, outcomes) != StrictPostHandshake
  {
    if outcomes != [] { NoHandshakeYet(r, outcomes[..|outcomes| - 1]); }
  }

  // ----- the loop -----

  class InputLoop {
    const input: array<byte>
    const rules: Rules
    var buffered: nat
    var discard: bool
    var phase: Phase
    /** Bytes the host has sent and the driver still holds. */
    var incoming: seq<byte>

    /** Everything read since the connection began, and how much of it has left the buffer. */
    ghost var stream: seq<byte>
    ghost var done: nat
    ghost var outcomes: seq<Outcome>

    /** Bytes outside the buffered part are wiped. */
    ghost predicate Wiped(from: nat)
      reads input
    {
      forall i :: from <= i < input.Length ==> input[i] == 0
    }

    ghost predicate Framed()
      reads this, input
    {
      && input.Length == CAPACITY && buffered <= CAPACITY && Wiped(buffered)
      && done <= |stream| && stream[done..] == input[..buffered]
      && (discard ==> buffered == 0)
      && Scan(stream[..done]) == Scanner(if discard then Discarding else Collecting([]), EventsOf(outcomes))
    }

    ghost predicate Valid()
      reads this, input
    {
      && input.Length == CAPACITY && buffered <= CAPACITY && Wiped(buffered)
      && (phase != Faulted ==> phase == PhaseAfter(rules, outcomes) && Framed())
    }

    /** The loop has done all it can without reading more. */
    ghost predicate Drained()
      reads this, input
    {
      phase != Faulted && buffered < CAPACITY && buffered <= input.Length && Unbroken(input[..buffered])
    }

    constructor (r: Rules)
      ensures Valid() && phase == PreHandshake && stream == [] && outcomes == []
    {
      input := new byte[CAPACITY](_ => 0);
      rules, buffered, discard, phase, incoming := r, 0, false, PreHandshake, [];
      stream, done, outcomes := [], 0, [];
    }

    /** Until a fault, what has been handled depends on the bytes alone, never on how `read` cut them. */
    lemma EventsDependOnBytesAlone()
      requires Valid() && phase != Faulted
      ensures EventsOf(outcomes) <= Scan(stream).events
      ensures Drained() ==> EventsOf(outcomes) == Scan(stream).events
    {
      assert stream == stream[..done] + stream[done..];
      ScanOnlyAppends(stream[..done], stream[done..]);
      if Drained() {
        if discard {
          assert stream == stream[..done];
        } else {
          ScanUnbroken(stream[..done], stream[done..]);
        }
      }
    }

    method WipeAll()
      modifies input
      ensures Wiped(0)
    {
      forall i | 0 <= i < input.Length { input[i] := 0; }
    }

    /** The driver copies in as many bytes as it likes, or fails. */
    method Read(offset: nat) returns (n: int)
      requires offset <= input.Length
      modifies this`incoming, input
      ensures n < 0 ==> incoming == old(incoming) && input[..] == old(input[..])
      ensures n >= 0 ==>
                && n <= |old(incoming)| && offset + n <= input.Length && incoming == old(incoming)[n..]
                && input[..] == old(input[..offset]) + old(incoming)[..n] + old(input[offset + n..])
    {
      var failed: bool := *;
      if failed { return -1; }
      var room := input.Length - offset;
      n := *;
      if n < 0 { n := 0; }
      if n > room { n := room; }
      if n > |incoming| { n := |incoming|; }
      forall i | 0 <= i < n { input[offset + i] := incoming[i]; }
      incoming := incoming[n..];
    }

    method FindNewline(end: nat) returns (at: nat)
      requires end <= input.Length
      ensures at <= end && Unbroken(input[..at]) && (at < end ==> input[at] == NEWLINE)
    {
      at := 0;
      while at < end && input[at] != NEWLINE
        invariant at <= end && Unbroken(input[..at])
      {
        at := at + 1;
      }
    }

    /** Moves the rest of the buffer to its front and wipes what it leaves behind. */
    method ConsumePrefix(count: nat)
      requires count <= buffered <= input.Length && Wiped(buffered)
      modifies this`buffered, input
      ensures buffered == old(buffered) - count && Wiped(buffered)
      ensures input[..buffered] == old(input[count..buffered])
    {
      var remaining := buffered - count;
      forall i | 0 <= i < remaining { input[i] := input[count + i]; }
      forall i | remaining <= i < input.Length { input[i] := 0; }
      buffered := remaining;
    }

    method StrippedLength(line: nat) returns (length: nat)
      requires line <= input.Length
      ensures length <= line && input[..length] == Stripped(input[..line])
    {
      length := line;
      while length > 0 && input[length - 1] == RETURN
        invariant length <= line && Stripped(input[..length]) == Stripped(input[..line])
      {
        assert input[..length][..length - 1] == input[..length - 1];
        length := length - 1;
      }
    }

    ghost method Note(o: Outcome)
      modifies this`outcomes
      ensures outcomes == old(outcomes) + [o] && EventsOf(outcomes) == EventsOf(old(outcomes)) + [o.event]
      ensures PhaseAfter(rules, outcomes) == NextPhase(rules, PhaseAfter(rules, old(outcomes)), o)
    {
      assert (outcomes + [o])[..|outcomes|] == outcomes;
      outcomes := outcomes + [o];
    }

    /** One turn of the loop. */
    method Turn(connected: bool)
      requires Valid()
      modifies this, input
      ensures Valid()
      ensures !connected ==> phase == PreHandshake && outcomes == [] && stream == []
      ensures connected ==> old(outcomes) <= outcomes && old(stream) <= stream && |outcomes| <= |old(outcomes)| + 1
      ensures old(phase) == Faulted && connected ==> phase == Faulted && outcomes == old(outcomes)
    {
      if !connected {
        phase, buffered, discard := PreHandshake, 0, false;
        WipeAll();
        stream, done, outcomes := [], 0, [];
      } else if phase == Faulted {
        WipeAll();
        buffered, discard := 0, false;
      } else if discard {
        DiscardMore();
      } else {
        var at := FindNewline(buffered);
        if at < buffered {
          HandleLine(at);
        } else if buffered >= input.Length {
          GiveUpLine();
        } else {
          ReadMore();
        }
      }
    }

    /** Reading on after an oversized line: everything up to its newline is thrown away. */
    method DiscardMore()
      requires Valid() && phase != Faulted && discard
      modifies this, input
      ensures Valid() && outcomes == old(outcomes) && old(stream) <= stream
    {
      var n := Read(0);
      if n < 0 {
        phase := Faulted;
        WipeAll();
        return;
      }
      if n == 0 { return; }
      var at := FindNewline(n);
      if at == n {
        DropAll(n);
      } else {
        DropThrough(at, n);
      }
    }

    lemma DiscardedBytes(arrived: seq<byte>, at: nat)
      requires done == |stream| && Scan(stream[..done]).mode == Discarding
      requires at <= |arrived| && Unbroken(arrived[..at])
      ensures Scan(stream + arrived[..at]) == Scan(stream[..done])
      ensures at < |arrived| && arrived[at] == NEWLINE ==>
                Scan((stream + arrived)[..done + at + 1]) == Scan(stream[..done]).(mode := Collecting([]))
    {
      assert stream[..done] == stream;
      ScanDiscarded(stream, arrived[..at]);
      if at < |arrived| && arrived[at] == NEWLINE {
        assert (stream + arrived)[..done + at + 1] == stream + arrived[..at] + [NEWLINE];
      }
    }

    method DropAll(n: nat)
      requires input.Length == CAPACITY && n <= CAPACITY && buffered == 0 && discard && Unbroken(input[..n])
      requires done == |stream| && Scan(stream[..done]) == Scanner(Discarding, EventsOf(outcomes))
      modifies input, this`stream, this`done
      ensures Framed() && stream == old(stream + input[..n])
    {
      hide Scan;
      ghost var arrived := input[..n];
      DiscardedBytes(arrived, n);
      assert arrived[..n] == arrived;
      WipeAll();
      stream, done := stream + arrived, |stream| + n;
      assert stream[..done] == stream;
    }

    method DropThrough(at: nat, n: nat)
      requires input.Length == CAPACITY && at < n <= CAPACITY && buffered == 0 && discard
      requires Unbroken(input[..at]) && input[at] == NEWLINE && Wiped(n)
      requires done == |stream| && Scan(stream[..done]) == Scanner(Discarding, EventsOf(outcomes))
      modifies input, this`stream, this`done, this`buffered, this`discard
      ensures Framed() && stream == old(stream + input[..n])
    {
      hide Scan;
      ghost var arrived := input[..n];
      assert arrived[..at] == input[..at];
      DiscardedBytes(arrived, at);
      buffered := n;
      ConsumePrefix(at + 1);
      discard := false;
      stream, done := stream + arrived, done + at + 1;
      assert stream[done..] == arrived[at + 1..];
    }

    method ReadMore()
      requires Valid() && phase != Faulted && !discard && buffered < input.Length
      modifies this, input
      ensures Valid() && outcomes == old(outcomes) && old(stream) <= stream
    {
      var n := Read(buffered);
      if n < 0 {
        phase := Faulted;
        WipeAll();
        buffered := 0;
        return;
      }
      ghost var arrived := input[buffered..buffered + n];
      assert (stream + arrived)[..done] == stream[..done];
      assert (stream + arrived)[done..] == stream[done..] + arrived;
      buffered := buffered + n;
      stream := stream + arrived;
    }

    /** The buffer is full and holds no newline. */
    method GiveUpLine()
      requires Valid() && phase != Faulted && !discard && buffered == input.Length && Unbroken(input[..buffered])
      modifies this, input
      ensures Valid() && |outcomes| == |old(outcomes)| + 1 && old(outcomes) <= outcomes && stream == old(stream)
    {
      var written: bool := *;
      var strict := phase == StrictPostHandshake;
      ScanUnbroken(stream[..done], stream[done..]);
      assert stream[..done] + stream[done..] == stream;
      Note(Outcome(TooLarge, false, written));
      if !written || strict { phase := Faulted; }
      WipeAll();
      buffered, discard := 0, true;
      done := |stream|;
      assert stream[..done] == stream;
    }

    /** A whole line is in the buffer; its newline is at `at`. */
    method HandleLine(at: nat)
      requires Valid() && phase != Faulted && !discard && at < buffered && Unbroken(input[..at]) && input[at] == NEWLINE
      modifies this, input
      ensures Valid() && |outcomes| == |old(outcomes)| + 1 && old(outcomes) <= outcomes && stream == old(stream)
    {
      JudgeLine(at);
      LineLeaves(at);
      ConsumePrefix(at + 1);
      done := done + at + 1;
    }

    lemma LineLeaves(at: nat)
      requires input.Length == CAPACITY && at < buffered <= CAPACITY && Unbroken(input[..at]) && input[at] == NEWLINE
      requires done <= |stream| && stream[done..] == input[..buffered]
      requires Scan(stream[..done]).mode == Collecting([])
      ensures Scan(stream[..done + at + 1]) == Scanner(Collecting([]), Scan(stream[..done]).events + [Judge(input[..at])])
      ensures stream[done + at + 1..] == input[at + 1..buffered]
    {
      ScanLine(stream[..done], input[..at]);
      assert stream[done..][..at + 1] == input[..at] + [NEWLINE];
      assert stream[..done + at + 1] == stream[..done] + input[..at] + [NEWLINE];
      assert stream[done..][at + 1..] == stream[done + at + 1..];
    }

    method JudgeLine(at: nat)
      requires at < input.Length == CAPACITY
      requires phase != Faulted && phase == PhaseAfter(rules, outcomes)
      modifies this`phase, this`outcomes
      ensures |outcomes| == |old(outcomes)| + 1 && old(outcomes) <= outcomes
      ensures EventsOf(outcomes) == EventsOf(old(outcomes)) + [Judge(input[..at])]
      ensures phase != Faulted ==> phase == PhaseAfter(rules, outcomes)
    {
      var length := StrippedLength(at);
      if length > MAX_MESSAGE {
        var written: bool := *;
        var strict := phase == StrictPostHandshake;
        Note(Outcome(TooLarge, false, written));
        if !written || strict { phase := Faulted; }
      } else {
        Answer(input[..length]);
      }
    }

    /** Hands a frame on, or drops it, and moves the phase. */
    method Answer(frame: seq<byte>)
      requires phase != Faulted && phase == PhaseAfter(rules, outcomes)
      modifies this`phase, this`outcomes
      ensures exists established, written :: outcomes == old(outcomes) + [Outcome(Frame(frame), established, written)]
      ensures EventsOf(outcomes) == EventsOf(old(outcomes)) + [Frame(frame)]
      ensures phase != Faulted ==> phase == PhaseAfter(rules, outcomes)
    {
      var established: bool, written: bool := *, *;
      var info := rules.classify(frame);
      var before := phase;
      Note(Outcome(Frame(frame), established, written));
      if rules.diagnostics(frame) {
        if !written { phase := Faulted; }
        return;
      }
      if before == PreHandshake && !(info.valid && info.hello) { return; }
      // the handler answers here
      if !written {
        phase := Faulted;
      } else if info.valid && info.hello && established {
        phase := StrictPostHandshake;
      } else if before == StrictPostHandshake && !info.valid {
        phase := Faulted;
      }
    }
  }

  const WRITE_CHUNK: nat := 512

  class UsbProtocolTransport {
    /** What the driver has accepted for the host. */
    var sent: seq<byte>
    const installed: bool

    constructor (ready: bool)
      ensures sent == [] && installed == ready
    {
      sent, installed := [], ready;
    }

    /** The driver takes a chunk whole, in part, or not at all. */
    method WriteBytes(chunk: seq<byte>) returns (written: int)
      modifies this
      ensures written <= |chunk|
      ensures sent == old(sent) + if written > 0 then chunk[..written] else []
    {
      written := *;
      if written > |chunk| { written := |chunk|; }
      if written > 0 { sent := sent + chunk[..written]; }
    }

    /** Success means the whole frame and its newline went out, once and in order. */
    method WriteFrame(response: seq<byte>) returns (completed: bool)
      modifies this
      ensures completed ==> sent == old(sent) + response + [NEWLINE]
      ensures old(sent) <= sent <= old(sent) + (response + [NEWLINE])
    {
      if !installed { return false; }
      var frame := response + [NEWLINE];
      var offset := 0;
      while offset < |frame|
        invariant 0 <= offset <= |frame|
        invariant sent == old(sent) + frame[..offset]
      {
        var chunk := if |frame| - offset < WRITE_CHUNK then |frame| - offset else WRITE_CHUNK;
        var written := WriteBytes(frame[offset..offset + chunk]);
        ghost var out := if written > 0 then offset + written else offset;
        assert sent == old(sent) + frame[..out] by {
          assert frame[..out] == frame[..offset] + frame[offset..out];
        }
        assert frame == frame[..out] + frame[out..];
        if written <= 0 || written != chunk { return false; }
        offset := offset + chunk;
      }
      completed := *;
    }
  }
}
