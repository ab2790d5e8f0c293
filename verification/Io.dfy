/** Readers and writers of bytes, as the standard library's io package defines them. */
module Io {
  import opened Prelude

  /** The outcomes of io.ReadFull. Faulty is any error of the source other than its end. */
  datatype ReadStatus = Full | Eof | UnexpectedEof | Faulty

  function StatusOf(want: nat, got: nat, broken: bool): ReadStatus {
    if got == want then Full
    else if broken then Faulty
    else if got == 0 then Eof
    else UnexpectedEof
  }

  predicate Usable(s: ReadStatus) {
    s == Full || s == UnexpectedEof
  }

  /** An io.Reader. A broken source fails where a sound one would end. */
  class Source {
    const data: bytes
    const broken: bool
    const seekable: bool
    var pos: nat

    ghost predicate Valid()
      reads this
    {
      pos <= |data|
    }

    constructor (data: bytes, broken: bool, seekable: bool)
      ensures Valid() && this.data == data && this.broken == broken && this.seekable == seekable && pos == 0
    {
      this.data, this.broken, this.seekable := data, broken, seekable;
      pos := 0;
    }

    method ReadFull(buf: array<byte>, want: nat) returns (got: nat, status: ReadStatus)
      requires Valid() && want <= buf.Length
      modifies this, buf
      ensures Valid()
      ensures got == Min(want, |data| - old(pos)) && pos == old(pos) + got
      ensures status == StatusOf(want, got, broken)
      ensures buf[..got] == data[old(pos)..pos]
    {
      got := Min(want, |data| - pos);
      CopyAt(buf, 0, data[pos..pos + got]);
      status := StatusOf(want, got, broken);
      pos := pos + got;
    }

    /** Seek to the start, if the reader is a Seeker and the seek succeeds. */
    method Rewind(seekSucceeds: bool) returns (ok: bool)
      modifies this
      ensures ok == (seekable && seekSucceeds) && pos == if ok then 0 else old(pos)
    {
      ok := seekable && seekSucceeds;
      if ok {
        pos := 0;
      }
    }
  }

  /** All the bytes are within what a writer takes before it fails, if it ever does. */
  predicate Fits(limit: Option<nat>, n: nat) {
    limit.Some? ==> n <= limit.value
  }

  /** What a writer has taken once it was given all of these bytes. */
  function Taken(limit: Option<nat>, all: bytes): (taken: bytes)
    ensures taken <= all && (taken == all <==> Fits(limit, |all|))
  {
    if Fits(limit, |all|) then all else all[..limit.value]
  }

  /** An io.Writer, as the bytes it has taken. It fails when it has taken as many as its limit. */
  class Sink {
    const limit: Option<nat>
    var written: bytes

    ghost predicate Valid()
      reads this
    {
      Fits(limit, |written|)
    }

    constructor (limit: Option<nat>)
      ensures Valid() && this.limit == limit && written == []
    {
      this.limit, written := limit, [];
    }

    method Write(data: bytes) returns (ok: bool)
      requires Valid()
      modifies this
      ensures Valid() && written == Taken(limit, old(written) + data)
      ensures ok == Fits(limit, |old(written)| + |data|)
    {
      ok := limit.None? || |written| + |data| <= limit.value;
      if ok {
        written := written + data;
      } else {
        written := (written + data)[..limit.value];
      }
    }
  }
}
