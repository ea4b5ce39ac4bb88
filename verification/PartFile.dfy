/**
 The file ends of a transfer as they run: the `.part` a download streams into,
 and the upload that serves a file from the offset it is asked for.
 */
module PartFile {
  import opened Wrappers
  import opened Transfer

  datatype TransferError =
    | FileWriteError
    | IncompleteDownload(received: nat, expected: nat)
    | OffsetPastEnd
    | Interrupted
    | FileReadError
    | StreamWriteError

  /** A file, which a path may name and a handle may have open, or both. */
  class Inode {
    var bytes: Bytes

    constructor (bytes: Bytes)
      ensures this.bytes == bytes
    {
      this.bytes := bytes;
    }
  }

  function BytesOf(file: Inode?): Option<Bytes>
    reads file
  {
    if file == null then None else Some(file.bytes)
  }

  /** The two paths a transfer uses. */
  class Disk {
    var part: Inode?
    var final: Inode?

    constructor (part: Inode?)
      ensures this.part == part && final == null
    {
      this.part, final := part, null;
    }

    /** Remove the `.part` from its directory, whoever has it open. */
    method RemovePart()
      modifies this`part
      ensures part == null
    {
      part := null;
    }
  }

  /** What `file` becomes when `data` comes in: nothing past the expected length is written. */
  function Poured(expected: nat, file: Bytes, data: Bytes): Bytes {
    file + data[..Min(|data|, Minus(expected, |file|))]
  }

  /** Pouring in two chunks is pouring them as one: only the bytes count, not how they were cut. */
  lemma PouredTwice(expected: nat, file: Bytes, a: Bytes, b: Bytes)
    ensures Poured(expected, Poured(expected, file, a), b) == Poured(expected, file, a + b)
  {
    var n := Minus(expected, |file|);
    if |a| <= n {
      assert (a + b)[..Min(|a + b|, n)] == a + b[..Min(|b|, n - |a|)];
    } else {
      assert (a + b)[..n] == a[..n];
    }
  }

  /**
   A `.part` opened for one attempt; `written` is its length until a write fails.
   The handle stays good when the path is removed, and what is written to it then
   is on no path.
   */
  class PartFile {
    const disk: Disk
    const file: Inode
    const expected: nat
    var written: nat

    ghost predicate Valid()
      reads this, file
    {
      |file.bytes| == written <= expected
    }

    /** A `.part` as long as the download, or longer, is restarted. */
    constructor Open(disk: Disk, size: nat)
      requires disk.part != null ==> disk.part != disk.final
      modifies disk`part, disk.part
      ensures Valid() && this.disk == disk && expected == size && disk.part == file && disk.final != file
      ensures file.bytes == Resumed(old(BytesOf(disk.part)), size)
      ensures file == old(disk.part) || fresh(file)
    {
      var on := disk.part;
      var onDisk := if on == null then 0 else |on.bytes|;
      if onDisk == 0 || onDisk >= size {
        if on == null {
          on := new Inode([]);
        } else {
          on.bytes := [];
        }
      }
      this.disk, file, expected, written := disk, on, size, if onDisk < size then onDisk else 0;
      new;
      disk.part := on;
    }

    /** One write. A `fault` is how much reached the file before it failed. */
    method Write(data: Bytes, fault: Option<nat>) returns (ok: bool)
      requires Valid()
      modifies this`written, file`bytes
      ensures ok <==> fault.None?
      ensures ok ==> Valid() && file.bytes == Poured(expected, old(file.bytes), data)
      ensures !ok ==> var toWrite := data[..Min(|data|, expected - old(|file.bytes|))];
                      file.bytes == old(file.bytes) + toWrite[..Min(fault.value, |toWrite|)]
    {
      var remaining := expected - written;
      var writeLen := if remaining < |data| then remaining else |data|;
      var toWrite := data[..writeLen];
      if fault.Some? {
        file.bytes := file.bytes + toWrite[..Min(fault.value, |toWrite|)];
        return false;
      }
      file.bytes := file.bytes + toWrite;
      written := written + |toWrite|;
      ok := true;
    }

    predicate IsComplete()
      reads this
    {
      written >= expected
    }

    method Discard()
      modifies disk`part
      ensures disk.part == null
    {
      disk.RemovePart();
    }

    /**
     A short transfer fails and keeps its `.part`; a complete one is renamed, if its
     path is still there.
     */
    method Finish(renames: bool) returns (r: Result<(), TransferError>)
      requires Valid()
      modifies disk
      ensures r.Success? <==> written == expected && renames && old(disk.part) != null
      ensures r.Success? ==> disk.part == null && disk.final == old(disk.part)
      ensures r.Failure? ==> unchanged(disk)
      ensures written < expected ==> r == Failure(IncompleteDownload(written, expected))
      ensures r.Failure? && written == expected ==> r == Failure(FileWriteError)
    {
      if !IsComplete() {
        return Failure(IncompleteDownload(written, expected));
      }
      if !renames || disk.part == null {
        return Failure(FileWriteError);
      }
      disk.final := disk.part;
      disk.part := null;
      r := Success(());
    }
  }

  // ---- Serving ----

  /** The other end of the socket: what has been written to it, and the progress shown. */
  class Wire {
    var sent: Bytes
    var bytesSent: nat

    constructor ()
      ensures sent == [] && bytesSent == 0
    {
      sent, bytesSent := [], 0;
    }
  }

  const BUFFER: nat := 65536

  /** The file cannot be read, or the write fails when this much is on the wire. */
  datatype Fault = Reading | Writing(put: nat)

  /**
   One turn of the upload's loop: the cancel flag, how much `read` gives (at least
   one byte, if any is left), and what fails, if anything does.
   */
  datatype ServeTurn = ServeTurn(cancelled: bool, size: nat, fault: Option<Fault>)

  /** What one `read` gives. Turns beyond those listed go undisturbed and fill the buffer. */
  function TurnAt(turns: seq<ServeTurn>, i: nat): ServeTurn {
    if i < |turns| then turns[i] else ServeTurn(false, BUFFER, None)
  }

  function ReadSize(size: nat, left: nat): (n: nat)
    ensures n <= left && n <= BUFFER && (n == 0 <==> left == 0)
  {
    Min(Min(if size == 0 then 1 else size, BUFFER), left)
  }

  /** The wire holds the file from `offset` to `put`; the progress shown counts it to `counted`. */
  method ServeFile(file: Bytes, offset: nat, turns: seq<ServeTurn>, wire: Wire)
    returns (r: Result<nat, TransferError>, ghost counted: nat, ghost put: nat)
    modifies wire`sent, wire`bytesSent
    ensures r == Failure(OffsetPastEnd) <==> offset > |file|
    ensures offset > |file| ==> unchanged(wire)
    ensures offset <= |file| ==>
              && offset <= counted <= put <= |file|
              && wire.sent == old(wire.sent) + file[offset..put]
              && wire.bytesSent == old(wire.bytesSent) + counted
    ensures r.Success? ==> r.value == |file| - offset && counted == put == |file|
    ensures r == Failure(Interrupted) || r == Failure(FileReadError) ==> counted == put
    ensures r == Failure(StreamWriteError) ==> counted < |file| && put <= counted + BUFFER
    ensures r.Failure? && offset <= |file| ==> r.error in {Interrupted, FileReadError, StreamWriteError}
    ensures offset <= |file| && (forall i :: 0 <= i < |turns| ==> !turns[i].cancelled && turns[i].fault.None?) ==>
              r.Success?
  {
    counted, put := offset, offset;
    if offset > |file| {
      r := Failure(OffsetPastEnd);
      return;
    }
    wire.bytesSent := wire.bytesSent + offset;
    var streamed, i := 0, 0;
    assert file[offset..offset] == [];
    while true
      invariant counted == put == offset + streamed <= |file|
      invariant wire.sent == old(wire.sent) + file[offset..put]
      invariant wire.bytesSent == old(wire.bytesSent) + counted
      decreases |file| - offset - streamed
    {
      var turn := TurnAt(turns, i);
      if turn.cancelled {
        r := Failure(Interrupted);
        return;
      }
      if turn.fault == Some(Fault.Reading) {
        r := Failure(FileReadError);
        return;
      }
      var read := ReadSize(turn.size, |file| - offset - streamed);
      if read == 0 {
        break;
      }
      var position := offset + streamed;
      if turn.fault.Some? {
        var more := Min(turn.fault.value.put, read);
        Onwards(file, offset, position, position + more);
        wire.sent := wire.sent + file[position..position + more];
        put := position + more;
        r := Failure(StreamWriteError);
        return;
      }
      Onwards(file, offset, position, position + read);
      wire.sent := wire.sent + file[position..position + read];
      wire.bytesSent := wire.bytesSent + read;
      streamed := streamed + read;
      counted, put := position + read, position + read;
      i := i + 1;
    }
    r := Success(streamed);
  }

  lemma Onwards(file: Bytes, a: nat, b: nat, c: nat)
    requires a <= b <= c <= |file|
    ensures file[a..b] + file[b..c] == file[a..c]
  {
  }
}
