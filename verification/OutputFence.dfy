/** The output fence of a foreground shell command: the shell ends the command's own output with a secret
    marker, which must be found across any chunking of the stream and kept out of the captured text.
 */
module OutputFence {
  import opened Basics
  import opened Search
  import opened BoundedBuffer

  // The last k bytes of the stream could be the beginning of the marker.
  ghost predicate Partial(s: seq<Byte>, m: seq<Byte>, k: int) {
    0 <= k <= |s| && k < |m| && s[|s| - k..] == m[..k]
  }

  ghost predicate LongestPartial(s: seq<Byte>, m: seq<Byte>, k: int) {
    Partial(s, m, k) && forall j :: k < j ==> !Partial(s, m, j)
  }

  lemma LongestPartialUnique(s: seq<Byte>, m: seq<Byte>, k: int, j: int)
    requires LongestPartial(s, m, k) && LongestPartial(s, m, j)
    ensures k == j
  {
  }

  // No occurrence begins before the bytes that are held back.
  lemma OccurrenceIsHeld(s: seq<Byte>, chunk: seq<Byte>, m: seq<Byte>, k: int, i: int)
    requires m != [] && !Occurs(s, m) && LongestPartial(s, m, k)
    requires OccursAt(s + chunk, m, i)
    ensures |s| - k <= i
    ensures OccursAt(s[|s| - k..] + chunk, m, i - (|s| - k))
  {
    var all := s + chunk;
    if i + |m| <= |s| {
      assert OccursAt(s, m, i) by { assert all[i..i + |m|] == s[i..i + |m|]; }
    }
    var j := |s| - i;
    if 0 <= j {
      assert all[i..i + |m|][..j] == s[i..];
      assert s[|s| - j..] == m[..j];
      assert Partial(s, m, j);
    }
    assert s[|s| - k..] + chunk == all[|s| - k..];
  }

  // Looking at the held bytes and the new chunk finds what looking at the whole stream would find.
  lemma FoundInHeld(s: seq<Byte>, chunk: seq<Byte>, m: seq<Byte>, k: int)
    requires m != [] && !Occurs(s, m) && LongestPartial(s, m, k)
    ensures var at := IndexOf(s[|s| - k..] + chunk, m);
            IndexOf(s + chunk, m) == if at == -1 then -1 else |s| - k + at
  {
    var all, data := s + chunk, s[|s| - k..] + chunk;
    CutConcat(s, chunk, |s| - k);
    var at, whole := IndexOf(data, m), IndexOf(all, m);
    if whole != -1 {
      OccurrenceIsHeld(s, chunk, m, k, whole);
    }
    if at != -1 {
      OccursInSuffix(all, m, |s| - k, at);
    }
  }

  // Nor does a longer beginning of the marker reach back before them.
  lemma HeldInHeld(s: seq<Byte>, chunk: seq<Byte>, m: seq<Byte>, k: int, j: int)
    requires m != [] && LongestPartial(s, m, k)
    requires LongestPartial(s[|s| - k..] + chunk, m, j)
    ensures LongestPartial(s + chunk, m, j)
  {
    var all, data := s + chunk, s[|s| - k..] + chunk;
    assert data == all[|s| - k..];
    assert all[|all| - j..] == data[|data| - j..];
    forall i | j < i
      ensures !Partial(all, m, i)
    {
      if Partial(all, m, i) {
        PartialIsHeld(s, chunk, m, k, i);
      }
    }
  }

  lemma PartialIsHeld(s: seq<Byte>, chunk: seq<Byte>, m: seq<Byte>, k: int, i: int)
    requires 0 <= k <= |s| && Partial(s + chunk, m, i)
    ensures if i <= k + |chunk| then Partial(s[|s| - k..] + chunk, m, i) else Partial(s, m, i - |chunk|)
  {
    var all, data := s + chunk, s[|s| - k..] + chunk;
    if i <= |data| {
      assert all[|all| - i..] == data[|data| - i..];
    } else {
      var n := i - |chunk|;
      assert all[|all| - i..][..n] == s[|s| - n..];
    }
  }

  // The stream with one occurrence of the marker cut out.
  function Without(s: seq<Byte>, m: seq<Byte>, at: int): seq<Byte>
    requires OccursAt(s, m, at)
  {
    s[..at] + s[at + |m|..]
  }

  // The longest beginning of the marker that `data` ends with.
  method Retained(data: seq<Byte>, marker: seq<Byte>) returns (retained: int)
    requires marker != []
    ensures LongestPartial(data, marker, retained)
  {
    var size := Min(|data|, |marker| - 1);
    while size > 0
      invariant 0 <= size
      invariant forall j :: size < j ==> !Partial(data, marker, j)
    {
      if data[|data| - size..] == marker[..size] {
        return size;
      }
      size := size - 1;
    }
    return 0;
  }

  lemma FoundInData(written: seq<Byte>, data: seq<Byte>, m: seq<Byte>, at: int)
    requires OccursAt(data, m, at)
    ensures OccursAt(written + data, m, |written| + at)
    ensures (written + data)[..|written| + at] == written + data[..at]
    ensures Without(written + data, m, |written| + at) == written + data[..at] + data[at + |m|..]
  {
    assert (written + data)[|written| + at..|written| + at + |m|] == data[at..at + |m|];
  }

  /** What has been captured, held back and taken down of the output received so far.  Until the marker is
      seen all of it is captured except a possible beginning of the marker; once it is seen, all but its
      first occurrence is, and the text before it has been taken down. */
  ghost predicate Fenced(received: seq<Byte>, m: seq<Byte>, abandoned: bool,
                         written: seq<Byte>, pending: seq<Byte>, terminal: bool, output: Option<Text>)
  {
    && m != []
    && (terminal <==> abandoned || IndexOf(received, m) != -1)
    && (!terminal ==>
          && output == None && received == written + pending && LongestPartial(received, m, |pending|))
    && (terminal ==> pending == [])
    && (abandoned ==> output == None && written == received)
    && (terminal && !abandoned ==>
          var at := IndexOf(received, m);
          output == Some(TextOf(received[..at])) && written == Without(received, m, at))
  }

  lemma PassedThrough(received: seq<Byte>, m: seq<Byte>, abandoned: bool, written: seq<Byte>, output: Option<Text>,
                      chunk: seq<Byte>)
    requires Fenced(received, m, abandoned, written, [], true, output)
    ensures Fenced(received + chunk, m, abandoned, written + chunk, [], true, output)
  {
    if !abandoned {
      FirstStaysFirst(received, chunk, m);
      var at := IndexOf(received, m);
      assert (received + chunk)[..at] == received[..at];
      assert Without(received + chunk, m, at) == Without(received, m, at) + chunk;
    }
  }

  lemma Detected(received: seq<Byte>, m: seq<Byte>, written: seq<Byte>, pending: seq<Byte>, chunk: seq<Byte>)
    requires Fenced(received, m, false, written, pending, false, None)
    ensures var data := pending + chunk;
            var at := IndexOf(data, m);
            && (IndexOf(received + chunk, m) == if at == -1 then -1 else |written| + at)
            && (at != -1 ==> Fenced(received + chunk, m, false, written + data[..at] + data[at + |m|..], [], true,
                                    Some(TextOf(written + data[..at]))))
  {
    var data := pending + chunk;
    assert received[|received| - |pending|..] == pending;
    assert received + chunk == written + data;
    FoundInHeld(received, chunk, m, |pending|);
    var at := IndexOf(data, m);
    if at != -1 {
      FoundInData(written, data, m, at);
    }
  }

  lemma HeldBack(received: seq<Byte>, m: seq<Byte>, written: seq<Byte>, pending: seq<Byte>, chunk: seq<Byte>,
                 retained: int)
    requires Fenced(received, m, false, written, pending, false, None)
    requires IndexOf(pending + chunk, m) == -1 && LongestPartial(pending + chunk, m, retained)
    ensures var data := pending + chunk;
            Fenced(received + chunk, m, false, written + data[..|data| - retained], data[|data| - retained..], false,
                   None)
  {
    var data := pending + chunk;
    assert received[|received| - |pending|..] == pending;
    HeldInHeld(received, chunk, m, |pending|, retained);
    Detected(received, m, written, pending, chunk);
    assert received + chunk == written + data == written + data[..|data| - retained] + data[|data| - retained..];
  }

  // So nothing about the fence depends on how the output was cut into chunks.
  lemma FencedUnique(received: seq<Byte>, m: seq<Byte>, abandoned: bool,
                     written1: seq<Byte>, pending1: seq<Byte>, terminal1: bool, output1: Option<Text>,
                     written2: seq<Byte>, pending2: seq<Byte>, terminal2: bool, output2: Option<Text>)
    requires Fenced(received, m, abandoned, written1, pending1, terminal1, output1)
    requires Fenced(received, m, abandoned, written2, pending2, terminal2, output2)
    ensures written1 == written2 && pending1 == pending2 && terminal1 == terminal2 && output1 == output2
  {
    if !terminal1 {
      LongestPartialUnique(received, m, |pending1|, |pending2|);
      assert written1 == received[..|written1|] && written2 == received[..|written2|];
      assert pending1 == received[|written1|..] && pending2 == received[|written2|..];
    }
  }

  class Fence {
    const marker: seq<Byte>
    const buffer: Buffer
    var pending: seq<Byte>
    var terminal: bool
    var output: Option<Text>
    ghost var received: seq<Byte>     // all output so far
    ghost var abandoned: bool         // given up before the marker was seen

    ghost predicate Valid() reads this, buffer {
      buffer.Valid() && Fenced(received, marker, abandoned, buffer.stream, pending, terminal, output)
    }

    constructor (marker: seq<Byte>)
      requires marker != []
      ensures Valid() && fresh(buffer) && received == [] && !terminal && !abandoned && this.marker == marker
    {
      this.marker := marker;
      pending, terminal, output, received, abandoned := [], false, None, [], false;
      buffer := new Buffer();
    }

    method TakeDown(before: seq<Byte>, after: seq<Byte>)
      requires buffer.Valid()
      modifies `pending, `output, `terminal, buffer
      ensures buffer.Valid() && buffer.stream == old(buffer.stream) + before + after
      ensures pending == [] && terminal && output == Some(TextOf(old(buffer.stream) + before))
    {
      buffer.Write(before);
      pending := [];
      var text := buffer.GetText();
      output := Some(text);
      terminal := true;
      buffer.Write(after);
    }

    method HoldBack(data: seq<Byte>) returns (retained: int)
      requires buffer.Valid() && marker != []
      modifies `pending, buffer
      ensures buffer.Valid() && LongestPartial(data, marker, retained)
      ensures buffer.stream == old(buffer.stream) + data[..|data| - retained] && pending == data[|data| - retained..]
    {
      retained := Retained(data, marker);
      buffer.Write(data[..|data| - retained]);
      pending := data[|data| - retained..];
    }

    // Looks for the marker in what is held back and the new chunk.
    method Scan(chunk: seq<Byte>)
      requires buffer.Valid() && marker != [] && !terminal
      modifies `pending, `output, `terminal, buffer
      ensures buffer.Valid()
      ensures var written, data := old(buffer.stream), old(pending) + chunk;
              var at := IndexOf(data, marker);
              if at != -1 then
                && buffer.stream == written + data[..at] + data[at + |marker|..]
                && pending == [] && terminal && output == Some(TextOf(written + data[..at]))
              else
                && !terminal && output == old(output) && |pending| <= |data|
                && LongestPartial(data, marker, |pending|) && pending == data[|data| - |pending|..]
                && buffer.stream == written + data[..|data| - |pending|]
    {
      var data := pending + chunk;
      var markerAt := IndexOf(data, marker);
      if markerAt >= 0 {
        TakeDown(data[..markerAt], data[markerAt + |marker|..]);
      } else {
        var retained := HoldBack(data);
      }
    }

    method ScanOutput(chunk: seq<Byte>)
      requires Valid() && !terminal
      modifies this, buffer
      ensures Valid() && received == old(received) + chunk && abandoned == old(abandoned)
    {
      hide LongestPartial, Partial, IndexOf, OccursAt, TextOf;
      ghost var before, written, held := received, buffer.stream, pending;
      Detected(before, marker, written, held, chunk);
      Scan(chunk);
      if IndexOf(held + chunk, marker) == -1 {
        HeldBack(before, marker, written, held, chunk, |pending|);
      }
      received := received + chunk;
    }

    method ConsumeOutput(chunk: seq<Byte>)
      requires Valid()
      modifies this, buffer
      ensures Valid() && received == old(received) + chunk && abandoned == old(abandoned)
    {
      if terminal {
        PassedThrough(received, marker, abandoned, buffer.stream, output, chunk);
        received := received + chunk;
        buffer.Write(chunk);
        return;
      }
      ScanOutput(chunk);
    }

    // At the end of the output, or when the shell dies: what was held back was output after all.
    method AbandonCompletion()
      requires Valid()
      modifies this, buffer
      ensures Valid() && received == old(received)
      ensures abandoned <==> old(abandoned) || IndexOf(received, marker) == -1
    {
      if terminal {
        return;
      }
      abandoned := true;
      buffer.Write(pending);
      pending := [];
      terminal := true;
    }

    /** For any chunking: the marker is found at its first occurrence in the whole stream, the text taken down
        is what came before it, and exactly that occurrence is missing from what is captured; without the
        marker, what is captured after the end of the stream is the stream. */
    method ConsumeAll(chunks: seq<seq<Byte>>)
      requires Valid() && received == [] && !terminal && !abandoned
      modifies this, buffer
      ensures Valid() && received == Flatten(chunks)
      ensures var at := IndexOf(received, marker);
              if at == -1 then output == None && buffer.stream == received
              else output == Some(TextOf(received[..at])) && buffer.stream == Without(received, marker, at)
    {
      for i := 0 to |chunks|
        invariant Valid() && received == Flatten(chunks[..i]) && !abandoned
      {
        ConsumeOutput(chunks[i]);
        assert chunks[..i + 1] == chunks[..i] + [chunks[i]];
        FlattenSnoc(chunks[..i], chunks[i]);
      }
      assert chunks[..|chunks|] == chunks;
      AbandonCompletion();
    }
  }
}
