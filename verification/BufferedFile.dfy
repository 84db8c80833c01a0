/** CFile itself: its fields, and each of its methods proved to take the step of FileModel that bears its name. */
module BufferedFile {
  import opened Bytes
  import opened FileModel
  import opened Options

  datatype OpenMode = ReadOnly | WriteNew | WriteSafe | WriteExcl | WriteAppend | ReadWrite

  /** The result of a method that can throw an I/O exception. */
  datatype Reply<T> = Done(value: T) | Thrown

  /**
   * The operating system's side of a file. A write or read may move fewer bytes than asked, or fail
   * (-1), at any time; a write that does not fail makes progress.
   */
  class Descriptor {
    var disk: seq<byte>
    var pos: nat
    const append: bool
    const readable: bool
    const writable: bool
    ghost var log: seq<byte>

    constructor (disk: seq<byte>, append: bool, readable: bool, writable: bool)
      ensures State() == Fd(disk, 0, append, readable, writable, [])
    {
      this.disk, this.pos, this.log := disk, 0, [];
      this.append, this.readable, this.writable := append, readable, writable;
    }

    ghost function State(): Fd
      reads this
    {
      Fd(disk, pos, append, readable, writable, log)
    }

    method Write(data: seq<byte>) returns (n: int)
      requires data != []
      modifies this
      ensures n == -1 || 0 < n <= |data|
      ensures !writable ==> n == -1
      ensures State() == Wrote(old(State()), if n == -1 then [] else data[..n])
    {
      var moved: nat := *;
      n := if writable && 0 < moved <= |data| then moved else -1;
      if n != -1 {
        var at := if append then |disk| else pos;
        disk, pos, log := Patch(disk, at, data[..n]), at + n, log + data[..n];
      }
    }

    method Read(dest: array<byte>, from: nat, count: nat) returns (n: int)
      requires from + count <= dest.Length && count > 0
      modifies this, dest
      ensures n == -1 || (0 <= n <= count && n <= old(State()).Avail() && (n == 0 ==> old(State()).Avail() == 0))
      ensures !readable ==> n == -1
      ensures n == -1 ==> State() == old(State()) && dest[..] == old(dest[..])
      ensures n != -1 ==> State() == old(State()).(pos := old(pos) + n)
      ensures n != -1 ==> forall i :: 0 <= i < dest.Length ==>
        dest[i] == if from <= i < from + n then old(disk)[old(pos) + i - from] else old(dest[i])
    {
      var avail := if pos < |disk| then |disk| - pos else 0;
      if avail == 0 {
        n := if readable then 0 else -1;
        return;
      }
      var moved: nat := *;
      n := if readable && 0 < moved <= count && moved <= avail then moved else -1;
      if n > 0 {
        forall i | 0 <= i < n {
          dest[from + i] := disk[pos + i];
        }
        pos := pos + n;
      }
    }

    /** doRead's loop, entered when nothing is pending, so that its end-of-file test only asks the descriptor. */
    method ReadLoop(dest: array<byte>, count: nat) returns (r: Reply<nat>)
      requires count <= dest.Length
      modifies this, dest
      ensures r.Done? && count > 0 ==> readable
      ensures r.Done? ==>
        var bytes := Upcoming(old(State()), count);
        && State() == old(State()).(pos := old(pos) + |bytes|)
        && (forall i :: 0 <= i < dest.Length ==> dest[i] == if i < |bytes| then bytes[i] else old(dest[i]))
        && r.value <= |bytes|
        && (r.value == |bytes| <==> count <= old(State()).Avail() || old(State()).Avail() == 0)
      ensures r.Thrown? ==> disk == old(disk)
    {
      ghost var start := State();
      var total := 0;
      while total < count
        invariant 0 <= total <= count && total <= start.Avail()
        invariant State() == start.(pos := start.pos + total)
        invariant forall i :: 0 <= i < dest.Length ==> dest[i] == if i < total then start.disk[start.pos + i] else old(dest[i])
        invariant total > 0 ==> readable
        invariant total == start.Avail() < count ==> total == 0
      {
        var current := Read(dest, total, count - total);
        if current == -1 {
          return Thrown;
        } else if total + current < count && pos >= |disk| {
          return Done(total);
        }
        total := total + current;
      }
      return Done(total);
    }

    /** DrainWriteBuffer's loop: how much of `data` was written, all of it unless a write failed. */
    method WriteLoop(data: seq<byte>) returns (total: nat, failed: bool)
      modifies this
      ensures if failed then total < |data| else total == |data|
      ensures State() == Wrote(old(State()), data[..total])
    {
      total, failed := 0, false;
      while total < |data|
        invariant total <= |data|
        invariant State() == Wrote(old(State()), data[..total])
      {
        var written := Write(data[total..]);
        if written < 0 {
          return total, true;
        }
        WroteFurther(old(State()), data, total, written);
        total := total + written;
      }
    }

    method Truncate(len: nat) returns (ok: bool)
      modifies this
      ensures ok ==> writable && State() == old(State()).(disk := Truncated(old(disk), len))
      ensures !ok ==> State() == old(State())
    {
      ok := *;
      ok := ok && writable;
      if ok {
        disk := Truncated(disk, len);
      }
    }
  }

  class CFile {
    var fd: Descriptor?
    var writeBuffer: array?<byte>
    var pending: nat
    var canBuffer: bool

    constructor ()
      ensures Valid() && fd == null
    {
      fd, writeBuffer, pending, canBuffer := null, null, 0, false;
    }

    ghost predicate Valid()
      reads this, fd, writeBuffer
    {
      && pending <= WRITE_BUFFER_SIZE
      && (writeBuffer == null ==> pending == 0)
      && (writeBuffer != null ==> writeBuffer.Length == WRITE_BUFFER_SIZE)
      && (fd == null ==> pending == 0)
      && (fd != null ==> canBuffer == fd.writable)
      && (pending > 0 ==> canBuffer)
    }

    ghost function State(): Buffered
      requires Valid() && fd != null
      reads this, fd, writeBuffer
    {
      Buffered(fd.State(), if writeBuffer == null then [] else writeBuffer[..pending])
    }

    /** What a failed drain leaves behind. */
    ghost predicate DrainFailed(was: Buffered)
      requires Valid() && fd != null
      reads this, fd, writeBuffer
    {
      exists t: nat | t < |was.pending| :: State() == HalfDrained(was, t)
    }

    /**
     * `existing` is the file found at the path, if any. A file that is still open is closed first. The descriptor
     * starts at offset 0 in every mode.
     */
    method Open(existing: Option<seq<byte>>, mode: OpenMode) returns (ok: Reply<bool>)
      requires Valid()
      modifies this, fd
      ensures Valid() && writeBuffer == old(writeBuffer) && (old(fd) == null ==> ok.Done?)
      ensures ok.Thrown? ==> fd != null && fd == old(fd) && DrainFailed(old(State()))
      ensures ok.Done? && old(fd) != null ==> old(fd).State() == old(View())
      ensures ok.Done? ==> ok.value == (fd != null)
      ensures ok == Done(false) ==> (mode.WriteExcl? && existing.Some?) || ((mode.ReadOnly? || mode.ReadWrite?) && existing.None?)
      ensures ok == Done(true) ==>
        && fresh(fd) && State().pending == [] && fd.pos == 0 && fd.log == []
        && fd.readable == (mode.ReadOnly? || mode.ReadWrite?) && fd.writable == !mode.ReadOnly?
        && fd.append == (mode.WriteAppend? && existing.Some?)
        && fd.disk == (if existing.Some? && (mode.ReadOnly? || mode.ReadWrite? || mode.WriteAppend?) then existing.value else [])
    {
      if fd != null {
        var closed := Close();
        if closed.Thrown? {
          return Thrown;
        }
      }
      pending := 0;
      canBuffer := mode != ReadOnly;
      match mode {
        case ReadOnly =>
          if existing.Some? { fd := new Descriptor(existing.value, false, true, false); }
        case ReadWrite =>
          if existing.Some? { fd := new Descriptor(existing.value, false, true, true); }
        case WriteAppend =>
          if existing.Some? { fd := new Descriptor(existing.value, true, false, true); }
          else { fd := new Descriptor([], false, false, true); }
        case WriteNew =>
          fd := new Descriptor([], false, false, true);
        case WriteSafe =>
          fd := new Descriptor([], false, false, true);
        case WriteExcl =>
          if existing.None? { fd := new Descriptor([], false, false, true); }
      }
      ok := Done(fd != null);
    }

    method DrainWriteBuffer() returns (r: Reply<()>)
      requires Valid() && fd != null
      modifies this`pending, fd
      ensures Valid()
      ensures r.Done? ==> State() == old(State()).Drained()
      ensures r.Thrown? ==> DrainFailed(old(State()))
    {
      if pending == 0 {
        return Done(());
      }
      ghost var was := State();
      var total, failed := fd.WriteLoop(writeBuffer[..pending]);
      if failed {
        assert State() == HalfDrained(was, total);
        return Thrown;
      }
      assert was.pending[..total] == was.pending;
      pending := 0;
      return Done(());
    }

    method DoWrite(data: seq<byte>) returns (r: Reply<nat>)
      requires Valid() && fd != null
      modifies this, fd, writeBuffer
      ensures Valid() && fd == old(fd) && (writeBuffer != old(writeBuffer) ==> fresh(writeBuffer))
      ensures r.Done? ==> (State(), Num(r.value)) == BufferedWrite(old(State()), data)
      ensures BufferedWrite(old(State()), data).1 == Failed ==> r.Thrown?
      ensures r.Thrown? ==>
        || DrainFailed(old(State()))
        || exists t: nat | t < |data| :: State() == Buffered(Wrote(old(View()), data[..t]), [])
    {
      if !canBuffer || |data| >= WRITE_BUFFER_SIZE {
        var drained := DrainWriteBuffer();
        if drained.Thrown? {
          return Thrown;
        }
        if |data| == 0 {
          return Done(0);
        }
        var result := fd.Write(data);
        assert data[..|data|] == data;
        if result != |data| {
          ghost var t := if result == -1 then 0 else result;
          assert State() == Buffered(Wrote(old(View()), data[..t]), []);
          return Thrown;
        }
        return Done(result);
      }
      if |data| == 0 {
        return Done(0);
      }
      if pending + |data| > WRITE_BUFFER_SIZE {
        var drained := DrainWriteBuffer();
        if drained.Thrown? {
          return Thrown;
        }
      }
      if writeBuffer == null {
        writeBuffer := new byte[WRITE_BUFFER_SIZE](_ => 0);
      }
      ghost var kept := writeBuffer[..pending];
      forall i | 0 <= i < |data| {
        writeBuffer[pending + i] := data[i];
      }
      pending := pending + |data|;
      assert writeBuffer[..pending] == kept + data;
      return Done(|data|);
    }

    /** The file as its caller sees it. */
    ghost function View(): Fd
      requires Valid() && fd != null
      reads this, fd, writeBuffer
    {
      State().View()
    }

    method DoSeek(offset: nat) returns (r: Reply<nat>)
      requires Valid() && fd != null
      modifies this`pending, fd
      ensures Valid()
      ensures r.Done? ==> (State(), Num(r.value)) == BufferedStep(old(State()), Op.Seek(offset))
      ensures r.Thrown? ==> DrainFailed(old(State()))
    {
      var drained := DrainWriteBuffer();
      if drained.Thrown? {
        return Thrown;
      }
      fd.pos := offset;
      return Done(offset);
    }

    method GetPosition() returns (r: Reply<nat>)
      requires Valid() && fd != null
      modifies this`pending, fd
      ensures Valid()
      ensures r.Done? ==> (State(), Num(r.value)) == BufferedStep(old(State()), Op.Position)
      ensures r.Thrown? ==> DrainFailed(old(State()))
    {
      var drained := DrainWriteBuffer();
      if drained.Thrown? {
        return Thrown;
      }
      return Done(fd.pos);
    }

    method GetLength() returns (r: Reply<nat>)
      requires Valid() && fd != null
      modifies this`pending, fd
      ensures Valid()
      ensures r.Done? ==> (State(), Num(r.value)) == BufferedStep(old(State()), Op.Length)
      ensures r.Thrown? ==> DrainFailed(old(State()))
    {
      var drained := DrainWriteBuffer();
      if drained.Thrown? {
        return Thrown;
      }
      return Done(|fd.disk|);
    }

    method GetAvailable() returns (r: Reply<nat>)
      requires Valid() && fd != null
      modifies this`pending, fd
      ensures Valid()
      ensures r.Done? ==> (State(), Num(r.value)) == BufferedStep(old(State()), Op.Available)
      ensures r.Thrown? ==> DrainFailed(old(State()))
    {
      var length := GetLength();
      if length.Thrown? {
        return Thrown;
      }
      var position := GetPosition();
      if position.Thrown? {
        return Thrown;
      }
      return Done(if position.value < length.value then length.value - position.value else 0);
    }

    method SetLength(len: nat) returns (r: Reply<bool>)
      requires Valid() && fd != null
      modifies this`pending, fd
      ensures Valid()
      ensures r == Done(true) ==> (State(), Ack) == BufferedStep(old(State()), Op.SetLength(len))
      ensures r == Done(false) ==> State() == old(State()).Drained()
      ensures r.Thrown? ==> DrainFailed(old(State()))
    {
      var drained := DrainWriteBuffer();
      if drained.Thrown? {
        return Thrown;
      }
      var ok := fd.Truncate(len);
      return Done(ok);
    }

    method Flush() returns (r: Reply<bool>)
      requires Valid() && fd != null
      modifies this`pending, fd
      ensures Valid()
      ensures r.Done? ==> (State(), Ack) == BufferedStep(old(State()), Op.Flush)
      ensures r.Thrown? ==> DrainFailed(old(State()))
    {
      var drained := DrainWriteBuffer();
      if drained.Thrown? {
        return Thrown;
      }
      return Done(true);
    }

    /** Nothing pending is lost: the descriptor that is let go of holds the file as last seen. */
    method Close() returns (r: Reply<()>)
      requires Valid() && fd != null
      modifies this, fd
      ensures Valid() && writeBuffer == old(writeBuffer)
      ensures r.Done? ==> fd == null && old(fd).State() == old(View())
      ensures r.Thrown? ==> fd == old(fd) && fd != null && DrainFailed(old(State()))
    {
      var drained := DrainWriteBuffer();
      if drained.Thrown? {
        return Thrown;
      }
      fd := null;
      return Done(());
    }

    method Eof() returns (r: Reply<bool>)
      requires Valid() && fd != null
      modifies this`pending, fd
      ensures Valid()
      ensures r.Done? ==> State() == old(State()).Drained() && r.value == (old(View()).Avail() == 0)
      ensures r.Thrown? ==> DrainFailed(old(State()))
      ensures old(pending) == 0 ==> pending == 0 && fd.State() == old(fd.State()) && r == Done(fd.pos >= |fd.disk|)
    {
      var position := GetPosition();
      if position.Thrown? {
        return Thrown;
      }
      var length := GetLength();
      if length.Thrown? {
        return Thrown;
      }
      return Done(position.value >= length.value);
    }

    /**
     * The bytes delivered and the new offset are the plain file's. The returned count equals the number
     * of bytes delivered exactly when the request ends inside the file or starts at its end: otherwise
     * the loop leaves before it adds the chunk that reached the end.
     */
    method DoRead(dest: array<byte>, count: nat) returns (r: Reply<nat>)
      requires Valid() && fd != null && count <= dest.Length && dest != writeBuffer
      modifies this`pending, fd, dest
      ensures Valid()
      ensures !fd.readable && count > 0 ==> r.Thrown?
      ensures r.Done? ==>
        var bytes := Upcoming(old(View()), count);
        && (State(), Data(bytes)) == BufferedStep(old(State()), Op.Read(count))
        && (forall i :: 0 <= i < dest.Length ==> dest[i] == if i < |bytes| then bytes[i] else old(dest[i]))
        && r.value <= |bytes|
        && (r.value == |bytes| <==> count <= old(View()).Avail() || old(View()).Avail() == 0)
      ensures r.Thrown? ==>
        || DrainFailed(old(State()))
        || (State().pending == [] && State().fd.disk == old(View()).disk)
    {
      var drained := DrainWriteBuffer();
      if drained.Thrown? {
        return Thrown;
      }
      r := fd.ReadLoop(dest, count);
    }
  }

}
