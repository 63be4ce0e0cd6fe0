/** The output buffer of a sandbox command (deploy/builder/engine.go) and the truncation marker that
    exec appends to what it holds (deploy/builder/tools.go). */
module BoundedBuffer {
  type Byte = bv8

  /** The bytes of `all` that a buffer of the given capacity can hold. */
  function Kept(cap: int, all: seq<Byte>): (r: seq<Byte>)
    ensures r <= all
    ensures |r| == if cap <= 0 then 0 else if cap <= |all| then cap else |all|
  {
    if cap <= 0 then [] else if cap <= |all| then all[..cap] else all
  }

  function Joined(chunks: seq<seq<Byte>>): seq<Byte> {
    if |chunks| == 0 then [] else Joined(chunks[..|chunks| - 1]) + chunks[|chunks| - 1]
  }

  /** Whether some write came when the buffer was already full, or did not fit. */
  predicate Overran(cap: int, chunks: seq<seq<Byte>>) {
    |chunks| > 0 &&
    var before := chunks[..|chunks| - 1];
    Overran(cap, before) || |Joined(before)| >= cap || |Joined(chunks)| > cap
  }

  class Buffer {
    const cap: int
    var n: int
    var buf: seq<Byte>
    var truncated: bool
    ghost var chunks: seq<seq<Byte>>

    ghost predicate Valid()
      reads this
    {
      && buf == Kept(cap, Joined(chunks))
      && n == |buf|
      && truncated == Overran(cap, chunks)
    }

    constructor (cap: int)
      ensures Valid() && this.cap == cap && chunks == []
    {
      this.cap := cap;
      n, buf, truncated, chunks := 0, [], false, [];
    }

    /** The buffer always holds the first min(cap, total) bytes of everything written, however it was
        cut into writes, and every write claims to have taken all its bytes. */
    method Write(p: seq<Byte>) returns (written: int)
      requires Valid()
      modifies this
      ensures Valid() && chunks == old(chunks) + [p] && written == |p|
    {
      ghost var before := Joined(chunks);
      chunks := chunks + [p];
      assert chunks[..|chunks| - 1] == old(chunks);
      assert Joined(chunks) == before + p;
      if n >= cap {
        truncated := true;
        return |p|;
      }
      assert buf == before;
      var remain := cap - n;
      if |p| > remain {
        buf := buf + p[..remain];
        n := cap;
        truncated := true;
        return |p|;
      }
      buf := buf + p;
      n := n + |p|;
      return |p|;
    }
  }

  /** What a command's whole output leaves in a fresh buffer, written chunk by chunk. */
  method Capture(cap: int, chunks: seq<seq<Byte>>) returns (out: seq<Byte>, truncated: bool)
    ensures out == Kept(cap, Joined(chunks))
    ensures truncated == Overran(cap, chunks)
  {
    var b := new Buffer(cap);
    for i := 0 to |chunks|
      invariant fresh(b) && b.Valid() && b.cap == cap && b.chunks == chunks[..i]
    {
      var _ := b.Write(chunks[i]);
      assert chunks[..i + 1] == chunks[..i] + [chunks[i]];
    }
    assert chunks[..|chunks|] == chunks;
    out, truncated := b.buf, b.truncated;
  }

  /** The limit exec passes on: a request can only lower the configured one. */
  function Limit(configured: int, requested: int): (r: int)
    ensures r <= configured && (0 < requested ==> r <= requested)
    ensures r == configured || 0 < r == requested
  {
    if 0 < requested < configured then requested else configured
  }

  predicate Marked(out: seq<Byte>, maxOut: int) {
    |out| >= maxOut
  }

  lemma {:induction false} JoinedGrows(chunks: seq<seq<Byte>>, i: nat)
    requires i <= |chunks|
    ensures |Joined(chunks[..i])| <= |Joined(chunks)|
  {
    if i == |chunks| {
      assert chunks[..i] == chunks;
    } else {
      var rest := chunks[..|chunks| - 1];
      assert rest[..i] == chunks[..i];
      JoinedGrows(rest, i);
    }
  }

  /** The flag exactly: bytes did not fit, or a write of any length found the buffer full. */
  lemma {:induction false} OverranExactly(cap: int, chunks: seq<seq<Byte>>)
    ensures Overran(cap, chunks) <==>
            (|Joined(chunks)| > cap && chunks != []) || exists i :: 0 <= i < |chunks| && |Joined(chunks[..i])| >= cap
  {
    if chunks == [] {
    } else {
      var rest := chunks[..|chunks| - 1];
      OverranExactly(cap, rest);
      assert forall i :: 0 <= i < |rest| ==> rest[..i] == chunks[..i];
      JoinedGrows(chunks, |rest|);
    }
  }

  /** The number of bytes that fills the buffer. */
  function Full(cap: int): nat { if cap <= 0 then 0 else cap }

  /** A dropped byte is never silent: the flag is set and exec appends its marker. The marker is
      appended exactly when the output reaches the limit, so it is a false alarm exactly when the
      output just fills the buffer. */
  lemma DropIsAnnounced(cap: int, chunks: seq<seq<Byte>>)
    ensures Kept(cap, Joined(chunks)) != Joined(chunks) ==> Overran(cap, chunks)
    ensures Marked(Kept(cap, Joined(chunks)), cap) <==> |Joined(chunks)| >= cap
    ensures Kept(cap, Joined(chunks)) != Joined(chunks) ==> Marked(Kept(cap, Joined(chunks)), cap)
    ensures Marked(Kept(cap, Joined(chunks)), cap) && Kept(cap, Joined(chunks)) == Joined(chunks) <==>
            |Joined(chunks)| == Full(cap)
  {
    OverranExactly(cap, chunks);
  }

  /** Two ways of cutting one stream leave the same flag too, unless it just fills the buffer: then
      it depends on whether a write, if only an empty one, came after the last byte. */
  lemma FlagIgnoresChunking(cap: int, a: seq<seq<Byte>>, b: seq<seq<Byte>>)
    requires Joined(a) == Joined(b)
    ensures |Joined(a)| != Full(cap) ==> Overran(cap, a) == Overran(cap, b) == (|Joined(a)| > Full(cap))
    ensures |Joined(a)| == Full(cap) ==>
              (Overran(cap, a) <==> a != [] && |Joined(a[..|a| - 1])| == |Joined(a)|)
  {
    OverranExactly(cap, a);
    OverranExactly(cap, b);
    PrefixesGrow(a);
    PrefixesGrow(b);
  }

  lemma PrefixesGrow(chunks: seq<seq<Byte>>)
    ensures forall i :: 0 <= i < |chunks| ==> |Joined(chunks[..i])| <= |Joined(chunks[..|chunks| - 1])| <= |Joined(chunks)|
  {
    forall i | 0 <= i < |chunks| ensures |Joined(chunks[..i])| <= |Joined(chunks[..|chunks| - 1])| <= |Joined(chunks)| {
      var rest := chunks[..|chunks| - 1];
      JoinedGrows(rest, i);
      JoinedGrows(chunks, |rest|);
      assert rest[..i] == chunks[..i];
    }
  }
}
