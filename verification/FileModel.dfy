/**
 * What an open file is: bytes behind a descriptor, and the operations a caller sees.
 *
 * `PlainRun` is the file without a userspace buffer, every write going straight to the descriptor.
 * `BufferedRun` is the file that holds small writes back, as CFile does. `RunsAgree` says that no
 * sequence of calls tells them apart.
 */
module FileModel {
  import opened Bytes

  const WRITE_BUFFER_SIZE: nat := 64 * 1024

  /** A descriptor: the bytes on disk, its offset, how it was opened, and every byte ever handed to write(), in order. */
  datatype Fd = Fd(disk: seq<byte>, pos: nat, append: bool, readable: bool, writable: bool, log: seq<byte>)
  {
    /** Where the next write lands: an O_APPEND descriptor ignores its offset. */
    function WritePos(): nat { if append then |disk| else pos }

    function Avail(): nat { if pos < |disk| then |disk| - pos else 0 }
  }

  /** `disk` with `data` laid at offset `at`, any hole before it filled with zeros. */
  function Patch(disk: seq<byte>, at: nat, data: seq<byte>): (r: seq<byte>)
    ensures |r| == if |disk| < at + |data| then at + |data| else |disk|
    ensures forall i :: 0 <= i < |r| ==> r[i] == if at <= i < at + |data| then data[i - at] else if i < |disk| then disk[i] else 0
  {
    var n := if |disk| < at + |data| then at + |data| else |disk|;
    seq(n, i requires 0 <= i < n => if at <= i < at + |data| then data[i - at] else if i < |disk| then disk[i] else 0)
  }

  /** The effect of writing `data` in full. */
  function Wrote(f: Fd, data: seq<byte>): Fd {
    if data == [] then f
    else f.(disk := Patch(f.disk, f.WritePos(), data), pos := f.WritePos() + |data|, log := f.log + data)
  }

  /** The next `n` bytes, or fewer at the end of the file. */
  function Upcoming(f: Fd, n: nat): seq<byte> {
    if f.Avail() <= n then (if f.pos < |f.disk| then f.disk[f.pos..] else []) else f.disk[f.pos..f.pos + n]
  }

  function Truncated(disk: seq<byte>, len: nat): (r: seq<byte>)
    ensures |r| == len
    ensures forall i :: 0 <= i < len ==> r[i] == if i < |disk| then disk[i] else 0
  {
    if len <= |disk| then disk[..len] else disk + seq(len - |disk|, _ => 0)
  }

  lemma PatchedTwice(disk: seq<byte>, at: nat, a: seq<byte>, b: seq<byte>)
    requires a != [] && b != []
    ensures Patch(Patch(disk, at, a), at + |a|, b) == Patch(disk, at, a + b)
  {
    hide Patch;
    var once, first := Patch(disk, at, a + b), Patch(disk, at, a);
    var twice := Patch(first, at + |a|, b);
    assert |once| == |twice|;
    forall i | 0 <= i < |once|
      ensures once[i] == twice[i]
    {
      if at + |a| <= i < at + |a + b| {
        assert (a + b)[i - at] == b[i - (at + |a|)];
      } else if at <= i < at + |a| {
        assert (a + b)[i - at] == a[i - at];
      }
    }
  }

  /** Two writes in a row are one write of both: what lets pending bytes be gathered, or drained in pieces. */
  lemma WroteTwice(f: Fd, a: seq<byte>, b: seq<byte>)
    ensures Wrote(Wrote(f, a), b) == Wrote(f, a + b)
  {
    if a == [] {
      assert a + b == b;
    } else if b == [] {
      assert a + b == a;
    } else {
      PatchedTwice(f.disk, f.WritePos(), a, b);
      assert f.log + a + b == f.log + (a + b);
    }
  }

  lemma WroteFurther(f: Fd, data: seq<byte>, total: nat, n: nat)
    requires total + n <= |data|
    ensures Wrote(Wrote(f, data[..total]), data[total..][..n]) == Wrote(f, data[..total + n])
  {
    WroteTwice(f, data[..total], data[total..][..n]);
    assert data[..total] + data[total..][..n] == data[..total + n];
  }

  datatype Op =
    | Write(data: seq<byte>)
    | Seek(offset: nat)
    | Read(count: nat)
    | Position
    | Length
    | Available
    | SetLength(len: nat)
    | Flush

  /** What a call returns. `Failed` is a thrown exception; a read past the end yields the bytes there are. */
  datatype Answer = Ack | Num(n: nat) | Data(bytes: seq<byte>) | Failed

  function PlainStep(f: Fd, op: Op): (Fd, Answer) {
    match op
    case Write(data) =>
      if data == [] then (f, Num(0)) else if !f.writable then (f, Failed) else (Wrote(f, data), Num(|data|))
    case Seek(offset) => (f.(pos := offset), Num(offset))
    case Read(count) =>
      if count == 0 then (f, Data([]))
      else if !f.readable then (f, Failed)
      else (f.(pos := f.pos + |Upcoming(f, count)|), Data(Upcoming(f, count)))
    case Position => (f, Num(f.pos))
    case Length => (f, Num(|f.disk|))
    case Available => (f, Num(f.Avail()))
    case SetLength(len) => if f.writable then (f.(disk := Truncated(f.disk, len)), Ack) else (f, Failed)
    case Flush => (f, Ack)
  }

  /** What was written somewhere is read there, and the file is as long as it must be. */
  lemma WrittenIsRead(f: Fd, at: nat, data: seq<byte>)
    requires f.readable && f.writable && !f.append && data != []
    ensures var (f1, sought) := PlainStep(f, Seek(at));
            var (f2, wrote) := PlainStep(f1, Write(data));
            var (f3, again) := PlainStep(f2, Seek(at));
            var (f4, read) := PlainStep(f3, Read(|data|));
            && sought == again == Num(at) && wrote == Num(|data|) && read == Data(data)
            && PlainStep(f2, Position).1 == PlainStep(f4, Position).1 == Num(at + |data|)
            && PlainStep(f2, Length).1 == PlainStep(f4, Length).1 == Num(if |f.disk| < at + |data| then at + |data| else |f.disk|)
  {
    var f3 := Wrote(f.(pos := at), data).(pos := at);
    assert Upcoming(f3, |data|) == data;
  }

  /** A file opened for appending takes everything at its end, wherever it was positioned. */
  lemma AppendedAtEnd(f: Fd, at: nat, data: seq<byte>)
    requires f.writable && f.append && data != []
    ensures var g := PlainStep(PlainStep(f, Seek(at)).0, Write(data)).0;
            g.disk == f.disk + data && PlainStep(g, Position).1 == PlainStep(g, Length).1 == Num(|f.disk| + |data|)
  {
  }

  /** A file that is truncated or extended has that length, and is read as what was there, with zeros behind it. */
  lemma TruncatedIsRead(f: Fd, len: nat, from: nat)
    requires f.readable && f.writable && from < len
    ensures var (f1, done) := PlainStep(f, SetLength(len));
            var (f2, sought) := PlainStep(f1, Seek(from));
            var (f3, read) := PlainStep(f2, Read(len));
            && done == Ack && sought == Num(from) && PlainStep(f1, Length).1 == Num(len) && PlainStep(f1, Position).1 == Num(f.pos)
            && PlainStep(f2, Available).1 == Num(len - from) && PlainStep(f3, Available).1 == Num(0) && PlainStep(f3, Position).1 == Num(len)
            && read == Data(seq(len - from, i requires 0 <= i < len - from => if from + i < |f.disk| then f.disk[from + i] else 0))
  {
    var f2 := f.(disk := Truncated(f.disk, len), pos := from);
    assert Upcoming(f2, len) == seq(len - from, i requires 0 <= i < len - from => if from + i < |f.disk| then f.disk[from + i] else 0);
  }

  /** CFile: the descriptor, and the bytes that doWrite has taken but not yet passed on. */
  datatype Buffered = Buffered(fd: Fd, pending: seq<byte>)
  {
    ghost predicate Valid() {
      |pending| <= WRITE_BUFFER_SIZE && (pending != [] ==> fd.writable)
    }

    /** The file as a caller may think of it: the pending bytes laid where the descriptor would write. */
    function View(): Fd { Wrote(fd, pending) }

    function Drained(): Buffered { Buffered(Wrote(fd, pending), []) }
  }

  /** doWrite, with every low-level write completing. */
  function BufferedWrite(b: Buffered, data: seq<byte>): (Buffered, Answer) {
    if !b.fd.writable || |data| >= WRITE_BUFFER_SIZE then
      var d := b.Drained();
      if data == [] then (d, Num(0))
      else if !d.fd.writable then (d, Failed)
      else (Buffered(Wrote(d.fd, data), []), Num(|data|))
    else if data == [] then (b, Num(0))
    else
      var d := if |b.pending| + |data| > WRITE_BUFFER_SIZE then b.Drained() else b;
      (d.(pending := d.pending + data), Num(|data|))
  }

  /** Every call but a write drains first and then asks the descriptor. */
  function BufferedStep(b: Buffered, op: Op): (Buffered, Answer) {
    if op.Write? then BufferedWrite(b, op.data)
    else var (fd, answer) := PlainStep(b.Drained().fd, op); (Buffered(fd, []), answer)
  }

  function PlainRun(f: Fd, ops: seq<Op>): (Fd, seq<Answer>)
    decreases |ops|
  {
    if ops == [] then (f, [])
    else
      var (f1, a) := PlainStep(f, ops[0]);
      var (f2, rest) := PlainRun(f1, ops[1..]);
      (f2, [a] + rest)
  }

  function BufferedRun(b: Buffered, ops: seq<Op>): (Buffered, seq<Answer>)
    decreases |ops|
  {
    if ops == [] then (b, [])
    else
      var (b1, a) := BufferedStep(b, ops[0]);
      var (b2, rest) := BufferedRun(b1, ops[1..]);
      (b2, [a] + rest)
  }

  lemma WritesAgree(b: Buffered, data: seq<byte>)
    requires b.Valid()
    ensures var (b1, answer) := BufferedWrite(b, data);
            b1.Valid() && (b1.View(), answer) == PlainStep(b.View(), Write(data))
  {
    if !b.fd.writable || |data| >= WRITE_BUFFER_SIZE {
      if data != [] && b.fd.writable {
        assert Buffered(Wrote(b.View(), data), []).View() == Wrote(b.View(), data);
      }
    } else if data != [] {
      if |b.pending| + |data| > WRITE_BUFFER_SIZE {
        assert [] + data == data;
      } else {
        WroteTwice(b.fd, b.pending, data);
      }
    }
  }

  lemma StepsAgree(b: Buffered, op: Op)
    requires b.Valid()
    ensures var (b1, answer) := BufferedStep(b, op);
            b1.Valid() && (b1.View(), answer) == PlainStep(b.View(), op)
  {
    if op.Write? {
      WritesAgree(b, op.data);
    } else {
      assert b.Drained().fd == b.View();
      assert forall fd :: Buffered(fd, []).View() == fd;
    }
  }

  /**
   * No sequence of calls, with any sizes, distinguishes the buffered file from the plain one: equal
   * answers, and after the final flush equal bytes, equal offset, and the same bytes handed to the
   * descriptor in the same order, each once. Never more than the buffer's size is held back.
   */
  lemma {:induction false} RunsAgree(b: Buffered, ops: seq<Op>)
    requires b.Valid()
    ensures BufferedRun(b, ops).1 == PlainRun(b.View(), ops).1
    ensures BufferedRun(b, ops).0.Drained().fd == PlainRun(b.View(), ops).0
    ensures |BufferedRun(b, ops).0.pending| <= WRITE_BUFFER_SIZE
    decreases |ops|
  {
    if ops != [] {
      StepsAgree(b, ops[0]);
      RunsAgree(BufferedStep(b, ops[0]).0, ops[1..]);
    }
  }

  /** The bytes that the successful writes of a run carried, in order. */
  function Carried(writable: bool, ops: seq<Op>): seq<byte> {
    if ops == [] then [] else CarriedBy(writable, ops[0]) + Carried(writable, ops[1..])
  }

  function CarriedBy(writable: bool, op: Op): seq<byte> {
    if op.Write? && writable then op.data else []
  }

  lemma PlainStepLog(f: Fd, op: Op)
    ensures PlainStep(f, op).0.log == f.log + CarriedBy(f.writable, op)
    ensures PlainStep(f, op).0.writable == f.writable
  {
  }

  lemma {:induction false} PlainLog(f: Fd, ops: seq<Op>)
    ensures PlainRun(f, ops).0.log == f.log + Carried(f.writable, ops)
    decreases |ops|
  {
    if ops != [] {
      var f1 := PlainStep(f, ops[0]).0;
      PlainStepLog(f, ops[0]);
      PlainLog(f1, ops[1..]);
      assert PlainRun(f, ops).0 == PlainRun(f1, ops[1..]).0;
      assert f1.log + Carried(f.writable, ops[1..]) == f.log + Carried(f.writable, ops);
    }
  }

  /** Each accepted byte reaches the descriptor exactly once: what write() has seen plus what is pending is what was written. */
  lemma EachByteOnce(b: Buffered, ops: seq<Op>)
    requires b.Valid()
    ensures var last := BufferedRun(b, ops).0;
            last.fd.log + last.pending == b.fd.log + b.pending + Carried(b.fd.writable, ops)
  {
    RunsAgree(b, ops);
    PlainLog(b.View(), ops);
  }

  /** A drain that failed after `t` bytes: they are on the descriptor, and all of the buffer is still pending. */
  function HalfDrained(b: Buffered, t: nat): Buffered
    requires t <= |b.pending|
  {
    b.(fd := Wrote(b.fd, b.pending[..t]))
  }

  /**
   * After a failed drain the file still reads as before exactly when the failing drain had moved
   * nothing: the buffer keeps no count of what it already passed on, so a retry repeats the `t` bytes.
   */
  lemma FailedDrainRepeats(b: Buffered, t: nat)
    requires b.Valid() && t < |b.pending|
    ensures HalfDrained(b, t).View().disk == b.View().disk && HalfDrained(b, t).View().pos == b.View().pos <==> t == 0
    ensures HalfDrained(b, t).View().log == b.fd.log + b.pending[..t] + b.pending
    ensures HalfDrained(b, t).View().pos == b.View().pos + t
  {
    WroteTwice(b.fd, b.pending[..t], b.pending);
    if t == 0 {
      assert b.pending[..0] + b.pending == b.pending;
    } else {
      assert |b.View().log| == |b.fd.log| + |b.pending|;
    }
  }

  /** A three-byte buffer whose drain fails after one byte: the retry leaves four bytes on disk. */
  lemma FailedDrainExample()
    ensures var b := Buffered(Fd([], 0, false, false, true, []), [1, 2, 3]);
            b.View().disk == [1, 2, 3] && HalfDrained(b, 1).View().disk == [1, 1, 2, 3]
  {
    var b := Buffered(Fd([], 0, false, false, true, []), [1, 2, 3]);
    assert b.pending[..1] == [1];
    assert Patch([], 0, [1]) == [1];
    assert Patch([1], 1, [1, 2, 3]) == [1, 1, 2, 3];
    assert Patch([], 0, [1, 2, 3]) == [1, 2, 3];
  }

  // ---- Runs in which drains and writes fail ----

  /** A call that goes through, or one whose drain fails after `t` bytes, or a direct write that does so after its drain. */
  datatype Event = Call(op: Op) | FailedDrain(t: nat) | FailedWrite(data: seq<byte>, t: nat)
  {
    /** A failure that can happen: short of the bytes at hand, and of a write only if that goes direct. */
    predicate Fails(b: Buffered) {
      match this
      case Call(_) => false
      case FailedDrain(t) => t < |b.pending|
      case FailedWrite(data, t) => b.fd.writable && |data| >= WRITE_BUFFER_SIZE && t < |data|
    }
  }

  function EventStep(b: Buffered, ev: Event): Buffered {
    match ev
    case Call(op) => BufferedStep(b, op).0
    case FailedDrain(t) => if ev.Fails(b) then HalfDrained(b, t) else b
    case FailedWrite(data, t) => if ev.Fails(b) then Buffered(Wrote(b.View(), data[..t]), []) else b
  }

  function FaultyRun(b: Buffered, evs: seq<Event>): Buffered
    decreases |evs|
  {
    if evs == [] then b else FaultyRun(EventStep(b, evs[0]), evs[1..])
  }

  /** The bytes that the successful writes among the events carried. */
  function CarriedThrough(writable: bool, evs: seq<Event>): seq<byte> {
    if evs == [] then []
    else CarriedByEvent(writable, evs[0]) + CarriedThrough(writable, evs[1..])
  }

  /** How many bytes failed drains and writes had already written. */
  function Wasted(b: Buffered, evs: seq<Event>): nat
    decreases |evs|
  {
    if evs == [] then 0
    else WastedBy(b, evs[0]) + Wasted(EventStep(b, evs[0]), evs[1..])
  }

  /** `a` is what is left of `b` when some of its bytes are crossed out. */
  predicate Within(a: seq<byte>, b: seq<byte>)
    decreases |b|
  {
    a == [] || (b != [] && ((a[0] == b[0] && Within(a[1..], b[1..])) || Within(a, b[1..])))
  }

  lemma {:induction false} WithinMore(a: seq<byte>, x: seq<byte>, y: seq<byte>, z: seq<byte>)
    requires Within(a, x + z)
    ensures Within(a, x + y + z)
    decreases |x|, |y|
  {
    if a != [] {
      if x != [] {
        assert (x + z)[1..] == x[1..] + z && (x + y + z)[1..] == x[1..] + y + z;
        if a[0] == x[0] && Within(a[1..], (x + z)[1..]) {
          WithinMore(a[1..], x[1..], y, z);
        } else {
          WithinMore(a, x[1..], y, z);
        }
      } else if y != [] {
        WithinMore(a, [], y[1..], z);
        assert ([] + y + z)[1..] == [] + y[1..] + z;
      } else {
        assert x + z == x + y + z;
      }
    }
  }

  lemma {:induction false} WithinBoth(a: seq<byte>, b: seq<byte>, c: seq<byte>)
    requires Within(a, b)
    ensures Within(a + c, b + c)
    decreases |b|
  {
    if b == [] {
      WithinSelf(c);
      assert a + c == c && b + c == c;
    } else if a == [] {
      WithinSelf(c);
      assert [] + c == c && a + c == c;
      WithinMore(c, [], b, c);
      assert [] + b + c == b + c;
    } else {
      assert (b + c)[1..] == b[1..] + c && (a + c)[1..] == a[1..] + c;
      if a[0] == b[0] && Within(a[1..], b[1..]) {
        WithinBoth(a[1..], b[1..], c);
      } else {
        WithinBoth(a, b[1..], c);
      }
    }
  }

  lemma {:induction false} WithinSelf(a: seq<byte>)
    ensures Within(a, a)
  {
    if a != [] {
      WithinSelf(a[1..]);
    }
  }

  lemma {:induction false} WithinTwice(a: seq<byte>, b: seq<byte>, c: seq<byte>)
    requires Within(a, b) && Within(b, c)
    ensures Within(a, c)
    decreases |c|
  {
    if a != [] && c != [] {
      if b[0] == c[0] && Within(b[1..], c[1..]) {
        if a[0] == b[0] && Within(a[1..], b[1..]) {
          WithinTwice(a[1..], b[1..], c[1..]);
        } else {
          WithinTwice(a, b[1..], c[1..]);
        }
      } else {
        WithinTwice(a, b, c[1..]);
      }
    }
  }

  function CarriedByEvent(writable: bool, ev: Event): seq<byte> { if ev.Call? then CarriedBy(writable, ev.op) else [] }

  function WastedBy(b: Buffered, ev: Event): nat { if ev.Fails(b) then ev.t else 0 }

  /** One event: what it adds to the bytes handed over or pending, with `rest` to follow. */
  lemma OneEvent(b: Buffered, ev: Event, rest: seq<byte>)
    requires b.Valid()
    ensures var c, accepted := EventStep(b, ev), b.View().log + (CarriedByEvent(b.View().writable, ev) + rest);
            && c.Valid() && c.View().writable == b.View().writable
            && Within(accepted, c.View().log + rest) && |c.View().log + rest| == |accepted| + WastedBy(b, ev)
  {
    hide Within, BufferedStep, Wrote, CarriedBy;
    var log := b.View().log;
    if ev.Call? {
      CallEvent(b, ev.op, rest);
    } else if ev.Fails(b) {
      if ev.FailedDrain? {
        FailedEvent(b, ev.t, rest);
      } else {
        FailedDirect(b, ev.data, ev.t, rest);
      }
      assert log + rest == log + ([] + rest);
    } else {
      WithinSelf(log + rest);
      assert log + rest == log + ([] + rest);
    }
  }

  lemma CallEvent(b: Buffered, op: Op, rest: seq<byte>)
    requires b.Valid()
    ensures var c, accepted := BufferedStep(b, op).0, b.View().log + (CarriedBy(b.View().writable, op) + rest);
            c.Valid() && c.View().writable == b.View().writable && Within(accepted, c.View().log + rest) && c.View().log + rest == accepted
  {
    hide Within, BufferedStep, Wrote, CarriedBy;
    var c := BufferedStep(b, op).0;
    StepsAgree(b, op);
    PlainStepLog(b.View(), op);
    WithinSelf(c.View().log + rest);
    assert c.View().log + rest == b.View().log + (CarriedBy(b.View().writable, op) + rest);
  }

  lemma FailedEvent(b: Buffered, t: nat, rest: seq<byte>)
    requires b.Valid() && t < |b.pending|
    ensures var c, log := HalfDrained(b, t), b.View().log;
            && c.Valid() && c.View().writable == b.View().writable
            && Within(log + rest, c.View().log + rest) && |c.View().log + rest| == |log + rest| + t
  {
    FailedDrainRepeats(b, t);
    var c, log, x, y, z := HalfDrained(b, t), b.View().log, b.fd.log, b.pending[..t], b.pending + rest;
    assert log + rest == x + z && c.View().log + rest == x + y + z by {
      assert log == b.fd.log + b.pending && c.View().log == b.fd.log + b.pending[..t] + b.pending;
    }
    hide Within, Wrote;
    WithinSelf(log + rest);
    WithinMore(log + rest, x, y, z);
  }

  lemma FailedDirect(b: Buffered, data: seq<byte>, t: nat, rest: seq<byte>)
    requires b.Valid() && b.fd.writable && t < |data|
    ensures var c, log := Buffered(Wrote(b.View(), data[..t]), []), b.View().log;
            && c.Valid() && c.View().writable == b.View().writable
            && Within(log + rest, c.View().log + rest) && |c.View().log + rest| == |log + rest| + t
  {
    var c, log := Buffered(Wrote(b.View(), data[..t]), []), b.View().log;
    assert c.View().log == log + data[..t];
    hide Within, Wrote;
    WithinSelf(log + rest);
    WithinMore(log + rest, log, data[..t], rest);
  }

  /**
   * Whatever drains and direct writes fail on the way: no accepted byte is lost or overtaken, and the bytes handed
   * over or pending are more than those accepted by exactly what the failed ones had written, so that they are the
   * accepted bytes, each once, if and only if none that failed had written anything.
   */
  lemma {:induction false} FaultyRuns(b: Buffered, evs: seq<Event>)
    requires b.Valid()
    ensures var e := FaultyRun(b, evs);
            var accepted := b.View().log + CarriedThrough(b.View().writable, evs);
            && e.Valid() && Within(accepted, e.View().log)
            && |e.View().log| == |accepted| + Wasted(b, evs)
            && (e.View().log == accepted <==> Wasted(b, evs) == 0)
    decreases |evs|
  {
    var accepted, log := b.View().log + CarriedThrough(b.View().writable, evs), FaultyRun(b, evs).View().log;
    if evs == [] {
      assert accepted == log;
      WithinSelf(log);
    } else {
      var c, rest := EventStep(b, evs[0]), CarriedThrough(b.View().writable, evs[1..]);
      OneEvent(b, evs[0], rest);
      FaultyRuns(c, evs[1..]);
      hide Within, EventStep, CarriedByEvent, WastedBy;
      WithinTwice(accepted, c.View().log + rest, log);
    }
    WithinLength(accepted, log);
  }

  lemma {:induction false} WithinLength(a: seq<byte>, b: seq<byte>)
    requires Within(a, b)
    ensures |a| <= |b| && (|a| == |b| ==> a == b)
    decreases |b|
  {
    if a != [] {
      if a[0] == b[0] && Within(a[1..], b[1..]) {
        WithinLength(a[1..], b[1..]);
      } else {
        WithinLength(a, b[1..]);
      }
    }
  }
}
