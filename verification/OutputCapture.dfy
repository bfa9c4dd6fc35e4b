/** The capture buffer of a shell command: the first bytes and a rolling tail, the middle dropped. */
module BoundedBuffer {
  import opened Basics

  type Byte = bv8

  const HEAD_CAP: nat := 512 * 1024
  const TAIL_CAP: nat := 3 * 512 * 1024

  function First<T>(s: seq<T>, n: nat): seq<T> { if n < |s| then s[..n] else s }

  function Last<T>(s: seq<T>, n: nat): seq<T> { if n < |s| then s[|s| - n..] else s }

  // What is kept of a byte stream.
  function Head(stream: seq<Byte>): seq<Byte> { First(stream, HEAD_CAP) }

  function Tail(stream: seq<Byte>): seq<Byte> { Last(stream[|Head(stream)|..], TAIL_CAP) }

  function Dropped(stream: seq<Byte>): int { |stream| - |Head(stream)| - |Tail(stream)| }

  // The text before decoding: one piece, or two around a note of how many bytes are missing.
  datatype Text = Whole(bytes: seq<Byte>) | Gapped(head: seq<Byte>, dropped: int, tail: seq<Byte>)

  function TextOf(stream: seq<Byte>): Text {
    if Dropped(stream) == 0 then Whole(Head(stream) + Tail(stream))
    else Gapped(Head(stream), Dropped(stream), Tail(stream))
  }

  // Nothing is lost from a stream of up to 2 MiB; of a longer one the first 512 KiB and the last 1536 KiB are kept.
  lemma TextOfStream(stream: seq<Byte>)
    ensures |stream| <= 2097152 ==> TextOf(stream) == Whole(stream)
    ensures |stream| > 2097152 ==>
              TextOf(stream) == Gapped(stream[..524288], |stream| - 2097152, stream[|stream| - 1572864..])
  {
    assert HEAD_CAP == 524288 && TAIL_CAP == 1572864;
    if |stream| <= HEAD_CAP {
      assert stream[|stream|..] == [];
    } else if |stream| <= HEAD_CAP + TAIL_CAP {
      assert stream[..HEAD_CAP] + stream[HEAD_CAP..] == stream;
    } else {
      var rest := stream[HEAD_CAP..];
      assert rest[|rest| - TAIL_CAP..] == stream[|stream| - TAIL_CAP..];
    }
  }

  // What a chunk adds to head and tail; `rest` is the part that no longer fits the head.
  lemma Extend(stream: seq<Byte>, chunk: seq<Byte>, rest: seq<Byte>)
    requires rest == chunk[Min(HEAD_CAP - |Head(stream)|, |chunk|)..]
    ensures Head(stream + chunk) == Head(stream) + First(chunk, HEAD_CAP - |Head(stream)|)
    ensures Tail(stream + chunk) == Last(Tail(stream) + rest, TAIL_CAP)
  {
    var all := stream + chunk;
    var before, after := stream[|Head(stream)|..], all[|Head(all)|..];
    assert after == before + rest;
    assert Last(Last(before, TAIL_CAP) + rest, TAIL_CAP) == Last(before + rest, TAIL_CAP);
  }

  lemma FlattenHead(parts: seq<seq<Byte>>)
    requires parts != []
    ensures Flatten(parts) == parts[0] + Flatten(parts[1..])
  {
    FlattenConcat(parts[..1], parts[1..]);
    assert parts[..1] + parts[1..] == parts;
    assert Flatten(parts[..1]) == parts[0] by { assert parts[..1][..0] == []; }
  }

  // Cutting `n` bytes off the oldest chunk, or dropping it whole, keeps the rest of the bytes.
  lemma TrimOldest(tail: seq<seq<Byte>>, n: nat)
    requires tail != [] && n <= |tail[0]|
    ensures |Flatten(tail)| >= n
    ensures Flatten(tail[0 := tail[0][n..]]) == Flatten(tail)[n..]
    ensures n == |tail[0]| ==> Flatten(tail[1..]) == Flatten(tail)[n..]
  {
    var cut := tail[0 := tail[0][n..]];
    FlattenHead(tail);
    FlattenHead(cut);
    assert cut[1..] == tail[1..];
  }

  lemma LastOfLast<T>(s: seq<T>, n: nat, m: nat)
    requires m <= n <= |s|
    ensures Last(s, n)[n - m..] == Last(s, m)
  {
  }

  class Buffer {
    var head: seq<Byte>
    var tail: seq<seq<Byte>>     // chunks, oldest first
    var tailSize: int
    var dropped: int
    ghost var stream: seq<Byte>  // all bytes ever written

    ghost predicate Valid() reads this {
      && head == Head(stream)
      && Flatten(tail) == Tail(stream)
      && (forall i :: 0 <= i < |tail| ==> tail[i] != [])
      && tailSize == |Tail(stream)|
      && dropped == Dropped(stream)
    }

    constructor ()
      ensures Valid() && stream == []
    {
      head, tail, tailSize, dropped, stream := [], [], 0, 0, [];
    }

    method Write(chunk: seq<Byte>)
      requires Valid()
      modifies this
      ensures Valid() && stream == old(stream) + chunk
    {
      var rest := chunk;
      if |head| < HEAD_CAP {
        var take := HEAD_CAP - |head|;
        head := head + First(rest, take);
        rest := rest[Min(take, |rest|)..];
      }
      Extend(stream, chunk, rest);
      stream := stream + chunk;
      if rest == [] {
        return;
      }
      tail := tail + [rest];
      tailSize := tailSize + |rest|;
      FlattenSnoc(old(tail), rest);
      Trim();
    }

    // Trims the oldest chunk instead of dropping it whole, so that exactly TAIL_CAP bytes stay.
    method Trim()
      requires head == Head(stream) && |Flatten(tail)| == tailSize
      requires forall i :: 0 <= i < |tail| ==> tail[i] != []
      modifies `tail, `tailSize, `dropped
      ensures Flatten(tail) == Last(old(Flatten(tail)), TAIL_CAP) && tailSize == |Flatten(tail)|
      ensures dropped == old(dropped) + old(tailSize) - tailSize
      ensures forall i :: 0 <= i < |tail| ==> tail[i] != []
    {
      ghost var all := Flatten(tail);
      while tailSize > TAIL_CAP
        invariant 0 <= tailSize <= |all| && Flatten(tail) == Last(all, tailSize)
        invariant forall i :: 0 <= i < |tail| ==> tail[i] != []
        invariant tailSize >= TAIL_CAP || tailSize == |all|
        invariant dropped == old(dropped) + |all| - tailSize
        decreases tailSize
      {
        var excess := tailSize - TAIL_CAP;
        assert tail != [] by { assert Flatten(tail) != []; }
        var oldest := tail[0];
        TrimOldest(tail, Min(excess, |oldest|));
        LastOfLast(all, tailSize, tailSize - Min(excess, |oldest|));
        if |oldest| <= excess {
          tail := tail[1..];
          tailSize := tailSize - |oldest|;
          dropped := dropped + |oldest|;
        } else {
          tail := tail[0 := oldest[excess..]];
          tailSize := tailSize - excess;
          dropped := dropped + excess;
        }
      }
    }

    method Size() returns (n: int)
      requires Valid()
      ensures n == |Head(stream)| + |Tail(stream)| == |stream| - Dropped(stream)
    {
      n := |head| + tailSize;
    }

    method GetText() returns (text: Text)
      requires Valid()
      ensures text == TextOf(stream)
    {
      if dropped == 0 {
        text := Whole(head + Flatten(tail));
      } else {
        text := Gapped(head, dropped, Flatten(tail));
      }
    }

    // Any chunking of a stream leaves the same buffer text.
    method WriteAll(chunks: seq<seq<Byte>>)
      requires Valid()
      modifies this
      ensures Valid() && stream == old(stream) + Flatten(chunks)
    {
      assert stream + Flatten([]) == stream;
      for i := 0 to |chunks|
        invariant Valid() && stream == old(stream) + Flatten(chunks[..i])
      {
        Write(chunks[i]);
        FlattenSnoc(chunks[..i], chunks[i]);
        assert chunks[..i + 1] == chunks[..i] + [chunks[i]];
        assert old(stream) + Flatten(chunks[..i]) + chunks[i] == old(stream) + (Flatten(chunks[..i]) + chunks[i]);
      }
      assert chunks[..|chunks|] == chunks;
    }
  }
}
