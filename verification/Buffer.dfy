/** The compacting byte buffer of a connection. Its storage is a growable array; its meaning is the
    plain byte queue `Contents()`. */
module Buffers {
  import opened Wrappers

  /** Size of the stack buffer a read may spill into. */
  const EXTRA := 65536

  class Buffer {
    var storage: array<char>
    var reader: nat
    var writer: nat

    ghost predicate Valid()
      reads this
    {
      reader <= writer <= storage.Length
    }

    ghost function Contents(): string
      requires Valid()
      reads this, storage
    {
      storage[reader..writer]
    }

    constructor (initialSize: nat := 4096)
      ensures Valid() && fresh(storage) && storage.Length == initialSize && Contents() == ""
    {
      storage := new char[initialSize](_ => '\0');
      reader, writer := 0, 0;
    }

    function ReadableBytes(): nat
      requires Valid()
      reads this
    {
      writer - reader
    }

    function WritableBytes(): nat
      requires Valid()
      reads this
    {
      storage.Length - writer
    }

    method View() returns (view: string)
      requires Valid()
      ensures view == Contents()
    {
      view := storage[reader..writer];
    }

    method RetrieveAll()
      requires Valid()
      modifies this`reader, this`writer
      ensures Valid() && storage == old(storage) && Contents() == ""
    {
      reader, writer := 0, 0;
    }

    /** Drops `length` bytes from the front, or throws (`ok` is false) and changes nothing. */
    method Retrieve(length: nat) returns (ok: bool)
      requires Valid()
      modifies this`reader, this`writer
      ensures Valid() && storage == old(storage)
      ensures ok == (length <= |old(Contents())|)
      ensures Contents() == if ok then old(Contents())[length..] else old(Contents())
    {
      if length > ReadableBytes() { return false; }
      if length == ReadableBytes() { RetrieveAll(); } else { reader := reader + length; }
      ok := true;
    }

    method RetrieveAllAsString() returns (result: string)
      requires Valid()
      modifies this`reader, this`writer
      ensures Valid() && storage == old(storage)
      ensures result == old(Contents()) && Contents() == ""
    {
      result := View();
      RetrieveAll();
    }

    /** Copies `data` into the storage from index `at` on. */
    method CopyIn(data: string, at: nat)
      requires at + |data| <= storage.Length
      modifies storage
      ensures storage[..at] == old(storage[..at])
      ensures storage[at..at + |data|] == data
    {
      for i := 0 to |data|
        invariant storage[..at] == old(storage[..at])
        invariant forall j :: 0 <= j < i ==> storage[at + j] == data[j]
      {
        storage[at + i] := data[i];
      }
    }

    /** Moves the readable bytes to the front, lowest index first. */
    method Compact()
      requires Valid()
      modifies this`reader, this`writer, storage
      ensures Valid() && storage == old(storage) && reader == 0
      ensures Contents() == old(Contents())
    {
      var readable := ReadableBytes();
      for i := 0 to readable
        invariant reader == old(reader) && writer == old(writer)
        invariant forall j :: 0 <= j < i ==> storage[j] == old(Contents())[j]
        invariant forall j :: reader + i <= j < writer ==> storage[j] == old(storage[j])
      {
        storage[i] := storage[reader + i];
      }
      reader := 0;
      writer := readable;
    }

    /** Grows the storage, keeping what it holds. */
    method Resize(size: nat)
      requires Valid() && storage.Length <= size
      modifies this`storage
      ensures Valid() && fresh(storage) && storage.Length == size
      ensures Contents() == old(Contents())
    {
      var old_ := storage;
      var grown := new char[size](i reads old_ => if 0 <= i < old_.Length then old_[i] else '\0');
      storage := grown;
    }

    method EnsureWritable(length: nat)
      requires Valid()
      modifies this, storage
      ensures Valid() && WritableBytes() >= length
      ensures storage == old(storage) || fresh(storage)
      ensures Contents() == old(Contents())
    {
      if WritableBytes() >= length { return; }
      if reader + WritableBytes() >= length {
        Compact();
      } else {
        Resize(writer + length);
      }
    }

    /** Bytes placed in the free storage behind the writer index. */
    method Fill(data: string)
      requires Valid() && |data| <= WritableBytes()
      modifies this`writer, storage
      ensures Valid() && storage == old(storage) && writer == old(writer) + |data|
      ensures Contents() == old(Contents()) + data
    {
      CopyIn(data, writer);
      ghost var front := storage[..writer];
      writer := writer + |data|;
      assert storage[..writer] == front + data;
      assert Contents() == storage[..writer][reader..];
    }

    method Append(data: string)
      requires Valid()
      modifies this, storage
      ensures Valid() && (storage == old(storage) || fresh(storage))
      ensures Contents() == old(Contents()) + data
    {
      EnsureWritable(|data|);
      Fill(data);
    }

    /** How many bytes one scattered read may deliver: always at least the size of the stack buffer. */
    function ReadCapacity(): (r: nat)
      requires Valid()
      reads this
      ensures r >= EXTRA
    {
      WritableBytes() + if WritableBytes() < EXTRA then EXTRA else 0
    }

    /** A read: `delivered` is what the system call placed in the free storage and, beyond it, in
        the stack buffer; `None` is a failed call. */
    method ReadFd(delivered: Option<string>) returns (count: int)
      requires Valid()
      requires delivered.Some? ==> |delivered.value| <= ReadCapacity()
      modifies this, storage
      ensures Valid() && (storage == old(storage) || fresh(storage))
      ensures count == if delivered.Some? then |delivered.value| else -1
      ensures Contents() == old(Contents()) + if delivered.Some? then delivered.value else ""
    {
      if delivered.None? { return -1; }
      var data := delivered.value;
      var writable := WritableBytes();
      if |data| <= writable {
        Fill(data);
      } else {
        Fill(data[..writable]);
        Append(data[writable..]);
        assert data == data[..writable] + data[writable..];
      }
      count := |data|;
    }

    /** A write: the system call accepts some count of the readable bytes; `None` is a failed call. */
    method WriteFd(accepted: Option<nat>) returns (count: int)
      requires Valid()
      requires accepted.Some? ==> accepted.value <= ReadableBytes()
      modifies this`reader, this`writer
      ensures Valid() && storage == old(storage)
      ensures count == if accepted.Some? then accepted.value else -1
      ensures Contents() == old(Contents())[if accepted.Some? then accepted.value else 0..]
    {
      if accepted.None? { return -1; }
      var ok := Retrieve(accepted.value);
      count := accepted.value;
    }
  }
}
