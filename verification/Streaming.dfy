/** Streaming a file into a layer, and reading a layer back under verification (pkg/layerdb/layerdb.go). */
module Streaming {
  import opened Basics
  import opened Oci
  import B = Bundle

  /** How one Read call ended, and the call's whole reply. */
  datatype End = More | Eof | Failed

  datatype Reply = Reply(data: Bytes, end: End)

  /** The bytes of a run of replies, up to and including the first that is not the reader asking for more calls. */
  function Yield(replies: seq<Reply>): Bytes {
    if replies == [] then []
    else if replies[0].end.More? then replies[0].data + Yield(replies[1..])
    else replies[0].data
  }

  function Ending(replies: seq<Reply>): End {
    if replies == [] then More
    else if replies[0].end.More? then Ending(replies[1..])
    else replies[0].end
  }

  // ----- one file into several writers

  /** A writer that takes `room` more bytes and then fails: a disk that fills up, or a tar entry whose
      header announced that many. */
  datatype Sink = Sink(got: Bytes, room: nat) {
    function Took(b: Bytes): Sink {
      var n := Min(|b|, room);
      Sink(got + b[..n], room - n)
    }
  }

  /** One write to all of them in order from the `i`-th, ending at the first that comes up short. */
  function Spread(sinks: seq<Sink>, i: nat, b: Bytes): (r: (seq<Sink>, bool))
    requires i <= |sinks|
    ensures |r.0| == |sinks|
    decreases |sinks| - i
  {
    if i == |sinks| then (sinks, true)
    else
      var after := sinks[i := sinks[i].Took(b)];
      if sinks[i].room < |b| then (after, false) else Spread(after, i + 1, b)
  }

  function Concat(pieces: seq<Bytes>): Bytes {
    if pieces == [] then [] else pieces[0] + Concat(pieces[1..])
  }

  /** One round of the copy loop, which skips the write when nothing was read. The first writer is the tar entry;
      while it takes the bytes the compressor hands `pieces` on to its output. */
  function Round(sinks: seq<Sink>, out: Sink, b: Bytes, pieces: seq<Bytes>): (r: (seq<Sink>, Sink, bool))
    requires sinks != []
    ensures |r.0| == |sinks|
  {
    if b == [] then (sinks, out, true)
    else if sinks[0].room < |b| then (Spread(sinks, 0, b).0, out, false)
    else if out.room < |Concat(pieces)| then (sinks, out.Took(Concat(pieces)), false)
    else
      var (after, ok) := Spread(sinks, 0, b);
      (after, out.Took(Concat(pieces)), ok)
  }

  /** The copy loop: what the writers and the compressor's output hold afterwards, and whether it reports success. */
  function Pump(sinks: seq<Sink>, out: Sink, size: nat, total: nat, replies: seq<Reply>, early: seq<seq<Bytes>>)
    : (seq<Sink>, Sink, bool)
    requires sinks != [] && !Ending(replies).More? && |replies| <= |early|
    decreases |replies|
  {
    var r := replies[0];
    var (after, taken, ok) := Round(sinks, out, r.data, early[0]);
    if !ok then (after, taken, false)
    else if r.end.More? then Pump(after, taken, size, total + |r.data|, replies[1..], early[1..])
    else (after, taken, r.end.Eof? && total + |r.data| == size)
  }

  /** What the compressor hands on while the file is read. */
  function Emitted(replies: seq<Reply>, early: seq<seq<Bytes>>): Bytes
    requires |replies| <= |early|
    decreases |replies|
  {
    if replies == [] then []
    else
      var now := if replies[0].data == [] then [] else Concat(early[0]);
      if replies[0].end.More? then now + Emitted(replies[1..], early[1..]) else now
  }

  ghost predicate Roomy(sinks: seq<Sink>, n: nat) {
    forall s :: s in sinks ==> n <= s.room
  }

  ghost predicate AllTook(sinks: seq<Sink>, after: seq<Sink>, b: Bytes) {
    |after| == |sinks| && forall i :: 0 <= i < |sinks| ==> after[i] == sinks[i].Took(b)
  }

  lemma {:induction false} SpreadMeans(sinks: seq<Sink>, i: nat, b: Bytes)
    requires i <= |sinks|
    ensures var (after, ok) := Spread(sinks, i, b);
            && |after| == |sinks|
            && (ok <==> forall j :: i <= j < |sinks| ==> |b| <= sinks[j].room)
            && (ok ==> forall j :: 0 <= j < |sinks| ==> after[j] == if j < i then sinks[j] else sinks[j].Took(b))
    decreases |sinks| - i
  {
    if i < |sinks| {
      var next := sinks[i := sinks[i].Took(b)];
      assert forall j :: i < j < |sinks| ==> next[j] == sinks[j];
      SpreadMeans(next, i + 1, b);
    }
  }

  lemma SpreadAll(sinks: seq<Sink>, b: Bytes)
    ensures var (after, ok) := Spread(sinks, 0, b);
            (ok <==> Roomy(sinks, |b|)) && (ok ==> AllTook(sinks, after, b))
  {
    SpreadMeans(sinks, 0, b);
    assert forall j :: 0 <= j < |sinks| ==> sinks[j] in sinks;
  }

  lemma TookTwice(sinks: seq<Sink>, mid: seq<Sink>, a: Bytes, b: Bytes)
    requires Roomy(sinks, |a|) && AllTook(sinks, mid, a)
    ensures Roomy(mid, |b|) <==> Roomy(sinks, |a| + |b|)
    ensures Roomy(sinks, |a| + |b|) ==> forall i :: 0 <= i < |sinks| ==> mid[i].Took(b) == sinks[i].Took(a + b)
  {
    assert forall i :: 0 <= i < |sinks| ==> sinks[i] in sinks && mid[i] in mid && mid[i].room == sinks[i].room - |a|;
    forall i | 0 <= i < |sinks| && |a| + |b| <= sinks[i].room ensures mid[i].Took(b) == sinks[i].Took(a + b) {
      assert a[..|a|] == a && b[..|b|] == b && (a + b)[..|a + b|] == a + b;
    }
  }

  lemma TookMore(s: Sink, a: Bytes, b: Bytes, c: Bytes)
    requires |a| <= s.room
    ensures s.Took(a).Took(b) == s.Took(a + b)
    ensures (a + b) + c == a + (b + c)
    ensures s.got <= s.Took(a + b).got <= s.got + (a + (b + c))
  {
    assert a[..|a|] == a;
    var n := Min(|b|, s.room - |a|);
    assert (a + b)[..|a| + n] == a + b[..n];
    assert b + c == b[..n] + (b[n..] + c);
  }

  lemma TookFull(s: Sink, a: Bytes, b: Bytes)
    requires s.room <= |a|
    ensures s.Took(a + b) == s.Took(a)
  {
    assert (a + b)[..s.room] == a[..s.room];
  }

  lemma RoundMeans(sinks: seq<Sink>, out: Sink, b: Bytes, pieces: seq<Bytes>)
    requires sinks != []
    ensures var (after, taken, ok) := Round(sinks, out, b, pieces);
            var now := if b == [] then [] else Concat(pieces);
            && (ok <==> Roomy(sinks, |b|) && |now| <= out.room)
            && (ok ==> AllTook(sinks, after, b) && taken == out.Took(now))
  {
    SpreadAll(sinks, b);
    assert sinks[0] in sinks;
    if b == [] {
      assert AllTook(sinks, sinks, []);
    }
  }

  /** However the reader cuts the file into pieces and whenever the compressor hands on its output, the loop
      succeeds exactly when the reader ends cleanly after `size` bytes in all and every writer, the output too, had
      room; then every writer holds just those bytes. */
  lemma {:induction false} StreamedWhole(sinks: seq<Sink>, out: Sink, size: nat, total: nat, replies: seq<Reply>,
                                         early: seq<seq<Bytes>>)
    requires sinks != [] && !Ending(replies).More? && |replies| <= |early|
    ensures var (after, taken, ok) := Pump(sinks, out, size, total, replies, early);
            && (ok <==> Ending(replies).Eof? && total + |Yield(replies)| == size && Roomy(sinks, |Yield(replies)|)
                        && |Emitted(replies, early)| <= out.room)
            && (ok ==> AllTook(sinks, after, Yield(replies)) && taken == out.Took(Emitted(replies, early)))
    decreases |replies|
  {
    var r := replies[0];
    RoundMeans(sinks, out, r.data, early[0]);
    var (mid, taken, ok) := Round(sinks, out, r.data, early[0]);
    if ok && r.end.More? {
      var now := if r.data == [] then [] else Concat(early[0]);
      assert taken.room == out.room - |now|;
      hide Round, Concat;
      StreamedWhole(mid, taken, size, total + |r.data|, replies[1..], early[1..]);
      TookTwice(sinks, mid, r.data, Yield(replies[1..]));
      TookMore(out, now, Emitted(replies[1..], early[1..]), []);
    }
  }

  /** Whatever fails and wherever, a later writer never holds more of the file than an earlier one: the
      snapshot is always a prefix of the tar body, and both are prefixes of what was read. */
  ghost predicate Nested(sinks: seq<Sink>, most: Bytes) {
    && (forall i :: 0 <= i < |sinks| ==> sinks[i].got <= most)
    && (forall i, j :: 0 <= i < j < |sinks| ==> sinks[j].got <= sinks[i].got)
  }

  /** Part-way through one write: the writers before the `i`-th have it, the others not yet. */
  ghost predicate Halfway(sinks: seq<Sink>, i: nat, so: Bytes, b: Bytes) {
    forall j :: 0 <= j < |sinks| ==> sinks[j].got == if j < i then so + b else so
  }

  lemma {:induction false} SpreadNests(sinks: seq<Sink>, i: nat, so: Bytes, b: Bytes)
    requires i <= |sinks| && Halfway(sinks, i, so, b)
    ensures Nested(Spread(sinks, i, b).0, so + b)
    ensures Spread(sinks, i, b).1 ==>
              Halfway(Spread(sinks, i, b).0, |sinks|, so, b) && |Spread(sinks, i, b).0| == |sinks|
    decreases |sinks| - i
  {
    if i < |sinks| {
      var next := sinks[i := sinks[i].Took(b)];
      if |b| <= sinks[i].room {
        assert b[..|b|] == b;
        SpreadNests(next, i + 1, so, b);
      }
    }
  }

  lemma RoundNests(sinks: seq<Sink>, out: Sink, so: Bytes, b: Bytes, pieces: seq<Bytes>)
    requires sinks != [] && Halfway(sinks, 0, so, [])
    ensures var (mid, taken, ok) := Round(sinks, out, b, pieces);
            Nested(mid, so + b) && (ok ==> Halfway(mid, 0, so + b, []))
  {
    if b == [] {
      assert so + b == so;
    } else {
      SpreadNests(sinks, 0, so, b);
    }
  }

  lemma PumpOnce(sinks: seq<Sink>, out: Sink, size: nat, total: nat, replies: seq<Reply>, early: seq<seq<Bytes>>)
    requires sinks != [] && !Ending(replies).More? && |replies| <= |early|
    ensures var (mid, taken, ok) := Round(sinks, out, replies[0].data, early[0]);
            && (replies[0].end.More? ==> !Ending(replies[1..]).More?)
            && Pump(sinks, out, size, total, replies, early).0 ==
               if ok && replies[0].end.More? then
                 Pump(mid, taken, size, total + |replies[0].data|, replies[1..], early[1..]).0
               else mid
  {
    hide Round;
  }

  lemma {:induction false} StreamedInOrder(sinks: seq<Sink>, out: Sink, so: Bytes, size: nat, total: nat,
                                           replies: seq<Reply>, early: seq<seq<Bytes>>)
    requires sinks != [] && !Ending(replies).More? && |replies| <= |early|
    requires Halfway(sinks, 0, so, [])
    ensures Nested(Pump(sinks, out, size, total, replies, early).0, so + Yield(replies))
    decreases |replies|
  {
    var r := replies[0];
    RoundNests(sinks, out, so, r.data, early[0]);
    YieldStarts(replies, so);
    PumpOnce(sinks, out, size, total, replies, early);
    hide Round, Nested, Halfway, Yield, Ending, Pump;
    var (mid, taken, ok) := Round(sinks, out, r.data, early[0]);
    if ok && r.end.More? {
      StreamedInOrder(mid, taken, so + r.data, size, total + |r.data|, replies[1..], early[1..]);
    } else {
      NestedMore(mid, so + r.data, so + Yield(replies));
    }
  }

  lemma YieldStarts(replies: seq<Reply>, so: Bytes)
    requires replies != []
    ensures so + replies[0].data <= so + Yield(replies)
    ensures replies[0].end.More? ==> (so + replies[0].data) + Yield(replies[1..]) == so + Yield(replies)
  {
    if replies[0].end.More? {
      Regroup(so, replies[0].data, Yield(replies[1..]));
    }
  }

  lemma NestedMore(sinks: seq<Sink>, less: Bytes, more: Bytes)
    requires Nested(sinks, less) && less <= more
    ensures Nested(sinks, more)
  {
  }

  class MultiWriter {
    var sinks: seq<Sink>

    constructor (sinks: seq<Sink>)
      ensures this.sinks == sinks
    {
      this.sinks := sinks;
    }

    method Write(b: Bytes) returns (ok: bool)
      modifies this
      ensures (sinks, ok) == Spread(old(sinks), 0, b)
    {
      var i := 0;
      while i < |sinks|
        invariant 0 <= i <= |sinks|
        invariant Spread(sinks, i, b) == Spread(old(sinks), 0, b)
      {
        var s := sinks[i];
        sinks := sinks[i := s.Took(b)];
        if s.room < |b| {
          return false;
        }
        i := i + 1;
      }
      return true;
    }
  }

  // ----- the compressed side

  /** The counting writer in front of the output, next to the digest. */
  class CountingHash {
    var output: Sink
    var count: nat
    var hashed: Bytes

    constructor (output: Sink)
      ensures this.output == output && count == 0 && hashed == []
    {
      this.output, count, hashed := output, 0, [];
    }

    method Write(p: Bytes) returns (ok: bool)
      modifies this
      ensures output == old(output).Took(p) && (ok <==> |p| <= old(output).room)
      ensures count == old(count) + |output.got| - |old(output).got|
      ensures hashed == if ok then old(hashed) + p else old(hashed)
    {
      ok := |p| <= output.room;
      count := count + Min(|p|, output.room);
      output := output.Took(p);
      if ok {
        hashed := hashed + p;
      }
    }

    /** However the compressor cuts its output. The count is what the output took, even after a failure. */
    method WriteAll(pieces: seq<Bytes>) returns (ok: bool)
      modifies this
      ensures ok <==> |Concat(pieces)| <= old(output).room
      ensures output == old(output).Took(Concat(pieces))
      ensures ok ==> hashed == old(hashed) + Concat(pieces)
      ensures count == old(count) + |output.got| - |old(output).got|
      ensures old(output).got <= output.got <= old(output).got + Concat(pieces)
    {
      var k := 0;
      ghost var start, done: Bytes := output, [];
      while k < |pieces|
        invariant 0 <= k <= |pieces| && done + Concat(pieces[k..]) == Concat(pieces)
        invariant |done| <= start.room && output == start.Took(done)
        invariant hashed == old(hashed) + done && count == old(count) + |done|
      {
        assert pieces[k..][1..] == pieces[k + 1..];
        TookMore(start, done, pieces[k], Concat(pieces[k + 1..]));
        var written := Write(pieces[k]);
        if !written {
          TookFull(start, done + pieces[k], Concat(pieces[k + 1..]));
          return false;
        }
        done := done + pieces[k];
        k := k + 1;
      }
      assert done == Concat(pieces);
      return true;
    }
  }

  function Now(b: Bytes, pieces: seq<Bytes>): Bytes {
    if b == [] then [] else Concat(pieces)
  }

  /** One write of the loop: the tar entry takes the bytes while the compressor hands on its output, then the others. */
  method WriteRound(fan: MultiWriter, end: CountingHash, b: Bytes, pieces: seq<Bytes>) returns (ok: bool)
    requires fan.sinks != []
    modifies fan, end
    ensures (fan.sinks, end.output, ok) == Round(old(fan.sinks), old(end.output), b, pieces)
    ensures end.count == old(end.count) + |end.output.got| - |old(end.output).got|
    ensures ok ==> end.hashed == old(end.hashed) + Now(b, pieces)
  {
    hide Spread, Concat;
    if b == [] {
      return true;
    }
    if |b| <= fan.sinks[0].room {
      var handedOn := end.WriteAll(pieces);
      if !handedOn {
        return false;
      }
      ok := fan.Write(b);
    } else {
      var short := fan.Write(b);
      return false;
    }
  }

  lemma EmittedStep(so: Bytes, replies: seq<Reply>, early: seq<seq<Bytes>>)
    requires replies != [] && |replies| <= |early|
    ensures replies[0].end.More? ==>
              (so + Now(replies[0].data, early[0])) + Emitted(replies[1..], early[1..]) == so + Emitted(replies, early)
    ensures !replies[0].end.More? ==> so + Now(replies[0].data, early[0]) == so + Emitted(replies, early)
  {
    if replies[0].end.More? {
      Regroup(so, Now(replies[0].data, early[0]), Emitted(replies[1..], early[1..]));
    }
  }

  /** streamFileToTar, after the header: `early` is what the compressor hands on in each round. */
  method StreamFile(fan: MultiWriter, end: CountingHash, size: nat, replies: seq<Reply>, early: seq<seq<Bytes>>)
    returns (ok: bool)
    requires fan.sinks != [] && !Ending(replies).More? && |replies| <= |early|
    modifies fan, end
    ensures (fan.sinks, end.output, ok) == Pump(old(fan.sinks), old(end.output), size, 0, replies, early)
    ensures end.count == old(end.count) + |end.output.got| - |old(end.output).got|
    ensures ok ==> end.hashed == old(end.hashed) + Emitted(replies, early)
  {
    hide Round, Emitted, Now;
    var k: nat, totalWritten: nat := 0, 0;
    ghost var emitted: Bytes := [];
    assert replies[0..] == replies && early[0..] == early;
    while true
      invariant 0 <= k < |replies| && !Ending(replies[k..]).More? && fan.sinks != []
      invariant Pump(fan.sinks, end.output, size, totalWritten, replies[k..], early[k..]) ==
                Pump(old(fan.sinks), old(end.output), size, 0, replies, early)
      invariant end.count == old(end.count) + |end.output.got| - |old(end.output).got|
      invariant end.hashed == old(end.hashed) + emitted
                && emitted + Emitted(replies[k..], early[k..]) == [] + Emitted(replies, early)
      decreases |replies| - k
    {
      var n, readErr := replies[k].data, replies[k].end;
      assert replies[k..][1..] == replies[k + 1..] && early[k..][1..] == early[k + 1..];
      EmittedStep(emitted, replies[k..], early[k..]);
      var written := WriteRound(fan, end, n, early[k]);
      if !written {
        return false;
      }
      totalWritten := totalWritten + |n|;
      Regroup(old(end.hashed), emitted, Now(n, early[k]));
      emitted := emitted + Now(n, early[k]);
      if readErr.Eof? {
        assert [] + Emitted(replies, early) == Emitted(replies, early);
        return totalWritten == size;
      }
      if readErr.Failed? {
        return false;
      }
      k := k + 1;
    }
  }

  lemma Regroup(a: Bytes, b: Bytes, c: Bytes)
    ensures (a + b) + c == a + (b + c)
  {
  }

  /** compressLayerV2. `sinks` are the optional snapshot file and progress counter. The compressor hands on `first`
      for the header, `early` while the file is read and `late` when the streams are closed. A layer is returned
      exactly when the header could be written, the reader ended cleanly with the announced size and nothing ran out
      of room, and then descriptor, diff ID, snapshot and output all speak of those bytes. */
  method CompressLayer(codec: B.Codec, mediaType: string, name: string, size: nat, replies: seq<Reply>,
                       sinks: seq<Sink>, output: Sink, headerOk: bool, first: seq<Bytes>, early: seq<seq<Bytes>>,
                       late: seq<Bytes>)
    returns (layer: Option<(Descriptor, string)>, after: seq<Sink>, written: Sink)
    requires !Ending(replies).More? && |replies| <= |early|
    requires Ending(replies).Eof? && |Yield(replies)| == size ==>
               Concat(first) + Emitted(replies, early) + Concat(late) == codec.compress(codec.tar(name, Yield(replies)))
    ensures var blob := codec.compress(codec.tar(name, Yield(replies)));
            && (layer.Some? <==> headerOk && Ending(replies).Eof? && |Yield(replies)| == size && Roomy(sinks, size)
                                 && |blob| <= output.room)
            && (layer.Some? ==> AllTook(sinks, after, Yield(replies)) && written == output.Took(blob))
            && (layer.Some? ==> layer.value.0.digest == codec.hash(blob) && layer.value.0.size == |blob|)
    ensures layer.Some? ==> layer.value.1 == codec.hash(codec.tar(name, Yield(replies)))
    ensures layer.Some? ==>
              forall c: B.Content :: B.Base(c.path) == name && c.bytes == Yield(replies) && c.mediaType == mediaType ==>
                layer.value.0.(annotations := map[B.FILEPATH := c.path]) == B.Layer(codec, c)
                && layer.value.1 == B.DiffId(codec, c)
  {
    var all := [Sink([], size)] + sinks;
    var fan := new MultiWriter(all);
    var end := new CountingHash(output);
    after, written := sinks, output;
    if !headerOk {
      return None, after, written;
    }
    var begun := end.WriteAll(first);
    written := end.output;
    if !begun {
      return None, after, written;
    }
    hide Concat, Emitted, Yield, Ending, Pump;
    ghost var mid := end.output;
    StreamedWhole(all, mid, size, 0, replies, early);
    RoomForAll(sinks, size);
    var streamed := StreamFile(fan, end, size, replies, early);
    written := end.output;
    if !streamed {
      OutputShort(output, Concat(first), Emitted(replies, early), Concat(late));
      return None, after, written;
    }
    after := fan.sinks[1..];
    TarTookAll(sinks, size, fan.sinks, Yield(replies));
    var tarStream := codec.tar(name, fan.sinks[0].got);
    OutputShort(output, Concat(first), Emitted(replies, early), Concat(late));
    var closed := end.WriteAll(late);
    written := end.output;
    if !closed {
      return None, after, written;
    }
    assert fan.sinks[0].got == Yield(replies);
    assert end.hashed == Concat(first) + Emitted(replies, early) + Concat(late);
    assert end.count == |Concat(first) + Emitted(replies, early) + Concat(late)|;
    LayerOf(codec, mediaType, name, Yield(replies));
    return Some((Descriptor(codec.hash(end.hashed), mediaType, end.count, map[]), codec.hash(tarStream))), after,
        written;
  }

  /** The descriptor and the diff ID a build records for these bytes, with the path added. */
  lemma LayerOf(codec: B.Codec, mediaType: string, name: string, bytes: Bytes)
    ensures var stream := codec.tar(name, bytes);
            var d := Descriptor(codec.hash(codec.compress(stream)), mediaType, |codec.compress(stream)|, map[]);
            forall c: B.Content :: B.Base(c.path) == name && c.bytes == bytes && c.mediaType == mediaType ==>
              d.(annotations := map[B.FILEPATH := c.path]) == B.Layer(codec, c)
              && codec.hash(stream) == B.DiffId(codec, c)
  {
  }

  lemma RoomForAll(sinks: seq<Sink>, size: nat)
    ensures Roomy([Sink([], size)] + sinks, size) <==> Roomy(sinks, size)
  {
    assert forall s :: s in [Sink([], size)] + sinks <==> s == Sink([], size) || s in sinks;
  }

  lemma TarTookAll(sinks: seq<Sink>, size: nat, after: seq<Sink>, b: Bytes)
    requires |b| == size && AllTook([Sink([], size)] + sinks, after, b)
    ensures after[0].got == b && AllTook(sinks, after[1..], b)
  {
    var all := [Sink([], size)] + sinks;
    assert b[..size] == b && after[0] == all[0].Took(b) && all[0] == Sink([], size);
    hide Sink.Took;
    forall i | 0 <= i < |sinks| ensures after[1..][i] == sinks[i].Took(b) {
      assert all[i + 1] == sinks[i] && after[i + 1] == all[i + 1].Took(b);
    }
  }

  /** Three stretches of output, one after the other. */
  lemma OutputShort(output: Sink, a: Bytes, b: Bytes, c: Bytes)
    requires |a| <= output.room
    ensures |a + b| <= output.room ==> output.Took(a).Took(b) == output.Took(a + b)
    ensures |a + b| <= output.room ==> output.Took(a + b).Took(c) == output.Took(a + b + c)
    ensures |a + b| <= output.room ==> output.Took(a + b).room == output.room - |a + b|
    ensures |a + b + c| <= output.room ==>
              output.Took(a + b + c) == Sink(output.got + (a + b + c), output.room - |a + b + c|)
  {
    TookMore(output, a, b, []);
    if |a + b| <= output.room {
      TookMore(output, a + b, c, []);
    }
    assert (a + b + c)[..|a + b + c|] == a + b + c;
  }

  // ----- reading back under verification

  /** What a verifying reader remembers: the bytes its digest has seen, and whether it has passed. */
  datatype Verifier = Verifier(fed: Bytes, verified: bool)

  function Checked(hash: Bytes -> string, diffid: string, v: Verifier, r: Reply): (Verifier, Reply) {
    var fed := v.fed + r.data;
    if r.end.Eof? && !v.verified then
      if hash(fed) == diffid then (Verifier(fed, true), r) else (Verifier(fed, false), r.(end := Failed))
    else (Verifier(fed, v.verified), r)
  }

  class VerifyingReader {
    const hash: Bytes -> string
    const diffid: string
    var fed: Bytes
    var verified: bool

    ghost function View(): Verifier
      reads this
    {
      Verifier(fed, verified)
    }

    constructor (hash: Bytes -> string, diffid: string)
      ensures View() == Verifier([], false) && this.hash == hash && this.diffid == diffid
    {
      this.hash, this.diffid, fed, verified := hash, diffid, [], false;
    }

    /** One Read, given the wrapped reader's reply. */
    method Read(reply: Reply) returns (r: Reply)
      modifies this
      ensures (View(), r) == Checked(hash, diffid, old(View()), reply)
    {
      if reply.data != [] {
        fed := fed + reply.data;
      }
      assert fed == old(fed) + reply.data;
      if reply.end.Eof? && !verified {
        if hash(fed) != diffid {
          return reply.(end := Failed);
        }
        verified := true;
      }
      return reply;
    }
  }

  /** What the reader hands on over a run of calls. */
  function HandedOn(hash: Bytes -> string, diffid: string, v: Verifier, replies: seq<Reply>): seq<Reply>
    decreases |replies|
  {
    if replies == [] then []
    else
      var (next, r) := Checked(hash, diffid, v, replies[0]);
      [r] + HandedOn(hash, diffid, next, replies[1..])
  }

  /** Reading to the end: the bytes pass through unchanged whatever their pieces, and a clean end is handed
      on exactly when the digest of all of them is the diff ID. */
  lemma {:induction false} CleanEndIffDigest(hash: Bytes -> string, diffid: string, v: Verifier, replies: seq<Reply>)
    requires !v.verified
    ensures var out := HandedOn(hash, diffid, v, replies);
            && Yield(out) == Yield(replies)
            && (Ending(out).Eof? <==> Ending(replies).Eof? && hash(v.fed + Yield(replies)) == diffid)
            && (Ending(out).More? <==> Ending(replies).More?)
    decreases |replies|
  {
    if replies != [] {
      var (next, r) := Checked(hash, diffid, v, replies[0]);
      var out := [r] + HandedOn(hash, diffid, next, replies[1..]);
      assert out[1..] == HandedOn(hash, diffid, next, replies[1..]);
      if replies[0].end.More? {
        CleanEndIffDigest(hash, diffid, next, replies[1..]);
        assert v.fed + replies[0].data + Yield(replies[1..]) == v.fed + Yield(replies);
      }
    }
  }

  /** What the two digests of a layer are for. A verifying reader with a layer's diff ID hands on a clean end for the
      layer's own tar stream, however it is delivered, and for no other stream; and the layer's digest and size are
      those of the compressed stream, and of no other. */
  lemma LayerReadsBack(codec: B.Codec, c: B.Content, replies: seq<Reply>, blob: Bytes)
    requires B.Ideal(codec)
    ensures var stream := codec.tar(B.Base(c.path), c.bytes);
            && (Ending(HandedOn(codec.hash, B.DiffId(codec, c), Verifier([], false), replies)).Eof? <==>
                  Ending(replies).Eof? && Yield(replies) == stream)
            && (B.Layer(codec, c).digest == codec.hash(blob) <==> blob == codec.compress(stream))
            && B.Layer(codec, c).size == |codec.compress(stream)|
  {
    CleanEndIffDigest(codec.hash, B.DiffId(codec, c), Verifier([], false), replies);
    assert [] + Yield(replies) == Yield(replies);
  }

  /** One call of a run. */
  lemma OneRead(hash: Bytes -> string, diffid: string, v: Verifier, replies: seq<Reply>, all: Bytes)
    requires replies != []
    ensures var (next, r) := Checked(hash, diffid, v, replies[0]);
            var out, rest := HandedOn(hash, diffid, v, replies), HandedOn(hash, diffid, next, replies[1..]);
            && (r.end.More? ==> all + Yield(out) == (all + r.data) + Yield(rest) && Ending(out) == Ending(rest))
            && (!r.end.More? ==> all + Yield(out) == all + r.data && Ending(out) == r.end)
            && (r.end.More? ==> Ending(replies) == Ending(replies[1..]))
  {
    var (next, r) := Checked(hash, diffid, v, replies[0]);
    var rest := HandedOn(hash, diffid, next, replies[1..]);
    assert HandedOn(hash, diffid, v, replies) == [r] + rest;
    hide HandedOn;
    YieldOnce(r, rest);
    hide Yield;
    Regroup(all, r.data, Yield(rest));
  }

  lemma YieldOnce(r: Reply, rest: seq<Reply>)
    ensures Yield([r] + rest) == if r.end.More? then r.data + Yield(rest) else r.data
    ensures Ending([r] + rest) == if r.end.More? then Ending(rest) else r.end
  {
    assert ([r] + rest)[1..] == rest;
  }

  /** A consumer that reads until the reader ends. */
  method ReadAll(hash: Bytes -> string, diffid: string, replies: seq<Reply>) returns (r: Result<Bytes>)
    requires !Ending(replies).More?
    ensures r.Ok? <==> Ending(replies).Eof? && hash(Yield(replies)) == diffid
    ensures r.Ok? ==> r.value == Yield(replies)
  {
    var reader := new VerifyingReader(hash, diffid);
    CleanEndIffDigest(hash, diffid, reader.View(), replies);
    assert [] + Yield(replies) == Yield(replies);
    ghost var out := HandedOn(hash, diffid, reader.View(), replies);
    assert replies != [];
    assert replies[0..] == replies;
    var k, all := 0, [];
    hide Checked, HandedOn, Yield, Ending;
    while true
      invariant 0 <= k < |replies| && reader.hash == hash && reader.diffid == diffid
      invariant !Ending(replies[k..]).More?
      invariant all + Yield(HandedOn(hash, diffid, reader.View(), replies[k..])) == Yield(out)
      invariant Ending(HandedOn(hash, diffid, reader.View(), replies[k..])) == Ending(out)
      decreases |replies| - k
    {
      OneRead(hash, diffid, reader.View(), replies[k..], all);
      assert replies[k..][1..] == replies[k + 1..];
      var reply := reader.Read(replies[k]);
      all := all + reply.data;
      if reply.end.Eof? {
        return Ok(all);
      }
      if reply.end.Failed? {
        return Err("checksum mismatch or read error");
      }
      EndedIsSome(replies[k + 1..]);
      k := k + 1;
    }
  }

  lemma EndedIsSome(replies: seq<Reply>)
    requires !Ending(replies).More?
    ensures replies != []
  {
  }

  /** Replies that tell the truth about a stream: its bytes in order, and its end only at its end. */
  predicate Faithful(stream: Bytes, replies: seq<Reply>) {
    replies != [] ==>
      && replies[0].data <= stream
      && (replies[0].end.Eof? ==> replies[0].data == stream)
      && Faithful(stream[|replies[0].data|..], replies[1..])
  }

  /** Reading until `need` bytes have arrived, each call asking for no more than are missing: the bytes, what is
      left of the replies, and whether it worked. A reader's error with the last byte counts only if it is strict. */
  function Exactly(need: nat, strict: bool, replies: seq<Reply>): (Bytes, seq<Reply>, bool)
    decreases |replies|
  {
    if need == 0 then ([], replies, true)
    else if replies == [] then ([], [], false)
    else
      var r := replies[0];
      if |r.data| > need then ([], replies[1..], false)
      else if |r.data| == need then (r.data, replies[1..], !strict || !r.end.Failed?)
      else if !r.end.More? then (r.data, replies[1..], false)
      else
        var (more, rest, ok) := Exactly(need - |r.data|, strict, replies[1..]);
        (r.data + more, rest, ok)
  }

  /** The bytes in the first `k` replies. */
  function Size(replies: seq<Reply>, k: nat): nat
    requires k <= |replies|
  {
    if k == 0 then 0 else |replies[0].data| + Size(replies[1..], k - 1)
  }

  /** Reply `k` brings the last byte asked for, the ones before it only bring fewer, and a strict reader finds no error
      with it. */
  ghost predicate CompletedBy(need: nat, strict: bool, replies: seq<Reply>, k: nat) {
    && k < |replies| && Size(replies, k) < need == Size(replies, k + 1)
    && (forall j :: 0 <= j < k ==> replies[j].end.More?)
    && !(strict && replies[k].end.Failed?)
  }

  lemma CompletedLater(need: nat, strict: bool, replies: seq<Reply>, k: nat)
    requires replies != [] && need > 0
    ensures CompletedBy(need, strict, replies, k + 1) <==>
              && |replies[0].data| < need && replies[0].end.More?
              && CompletedBy(need - |replies[0].data|, strict, replies[1..], k)
    ensures CompletedBy(need, strict, replies, 0) <==>
              |replies[0].data| == need && !(strict && replies[0].end.Failed?)
  {
    var rest := replies[1..];
    assert Size(replies, 1) == |replies[0].data| + Size(rest, 0);
    if k < |rest| && replies[0].end.More? && forall j :: 0 <= j < k ==> rest[j].end.More? {
      forall j | 0 <= j < k + 1 ensures replies[j].end.More? {
        assert j > 0 ==> replies[j] == rest[j - 1];
      }
    }
    if k < |rest| && forall j :: 0 <= j < k + 1 ==> replies[j].end.More? {
      forall j | 0 <= j < k ensures rest[j].end.More? {
        assert rest[j] == replies[j + 1];
      }
    }
  }

  /** When it works: exactly when some reply completes it. */
  lemma {:induction false} ExactlyWhen(need: nat, strict: bool, replies: seq<Reply>)
    ensures Exactly(need, strict, replies).2 <==> need == 0 || exists k: nat :: CompletedBy(need, strict, replies, k)
    decreases |replies|
  {
    if need > 0 && replies != [] {
      var n := |replies[0].data|;
      hide CompletedBy;
      CompletedLater(need, strict, replies, 0);
      if n < need && replies[0].end.More? {
        var more, rest := need - n, replies[1..];
        ExactlyWhen(more, strict, rest);
        if k: nat :| CompletedBy(more, strict, rest, k) {
          CompletedLater(need, strict, replies, k);
        }
      }
      if k: nat :| CompletedBy(need, strict, replies, k) {
        if k > 0 {
          CompletedLater(need, strict, replies, k - 1);
        }
      }
    } else if need > 0 {
      forall k: nat ensures !CompletedBy(need, strict, replies, k) {
      }
    }
  }

  lemma {:induction false} ExactlyDelivers(need: nat, strict: bool, stream: Bytes, replies: seq<Reply>)
    requires Faithful(stream, replies) && need <= |stream|
    ensures var (got, rest, ok) := Exactly(need, strict, replies);
            ok ==> got == stream[..need] && Faithful(stream[need..], rest)
    decreases |replies|
  {
    if need > 0 && replies != [] {
      var n := |replies[0].data|;
      if n < need && replies[0].end.More? {
        ExactlyDelivers(need - n, strict, stream[n..], replies[1..]);
        assert stream[n..][need - n..] == stream[need..] && stream[..n] + stream[n..][..need - n] == stream[..need];
      }
    }
  }

  /** How the reply ends that brings the last of the `need` bytes. */
  function LastEnd(need: nat, replies: seq<Reply>): End
    decreases |replies|
  {
    if need == 0 || replies == [] then More
    else
      var r := replies[0];
      if |r.data| >= need || !r.end.More? then r.end else LastEnd(need - |r.data|, replies[1..])
  }

  /** Of truthful replies, the one that brings the last byte asked for can only end the stream if nothing is left. */
  lemma {:induction false} EofIsLast(need: nat, strict: bool, stream: Bytes, replies: seq<Reply>)
    requires Faithful(stream, replies) && need <= |stream|
    ensures Exactly(need, strict, replies).2 && LastEnd(need, replies).Eof? ==> need == |stream|
    decreases |replies|
  {
    if need > 0 && replies != [] && |replies[0].data| < need && replies[0].end.More? {
      var n := |replies[0].data|;
      EofIsLast(need - n, strict, stream[n..], replies[1..]);
    }
  }

  /** Where the reading will have got to, `got` being there already. */
  function Reading(got: Bytes, need: nat, strict: bool, rest: seq<Reply>): (Bytes, seq<Reply>, bool) {
    var (more, last, fine) := Exactly(need, strict, rest);
    (got + more, last, fine)
  }

  /** One call further. */
  lemma ReadOnce(got: Bytes, need: nat, strict: bool, rest: seq<Reply>)
    requires need > 0
    ensures rest == [] ==> Reading(got, need, strict, rest) == (got, [], false)
    ensures rest != [] ==>
              var r := rest[0];
              Reading(got, need, strict, rest) ==
              if |r.data| > need then (got, rest[1..], false)
              else if |r.data| == need then (got + r.data, rest[1..], !strict || !r.end.Failed?)
              else if !r.end.More? then (got + r.data, rest[1..], false)
              else Reading(got + r.data, need - |r.data|, strict, rest[1..])
    ensures rest != [] ==>
              var r := rest[0];
              LastEnd(need, rest) ==
              if |r.data| >= need || !r.end.More? then r.end else LastEnd(need - |r.data|, rest[1..])
  {
    assert got + [] == got;
    if rest != [] && |rest[0].data| < need && rest[0].end.More? {
      Regroup(got, rest[0].data, Exactly(need - |rest[0].data|, strict, rest[1..]).0);
    }
  }

  lemma NothingToRead(strict: bool, replies: seq<Reply>)
    ensures Exactly(0, strict, replies) == ([], replies, true) && LastEnd(0, replies) == More
  {
  }

  /** One verified call on truthful replies: the digest only decides at the stream's end. */
  lemma CheckedOnce(hash: Bytes -> string, diffid: string, v: Verifier, whole: Bytes, left: Bytes, rest: seq<Reply>)
    requires !v.verified && v.fed + left == whole && rest != [] && Faithful(left, rest)
    ensures var (next, r), raw := Checked(hash, diffid, v, rest[0]), rest[0];
            && r.data == raw.data && raw.data <= left && Faithful(left[|raw.data|..], rest[1..])
            && next.fed + left[|raw.data|..] == whole
            && (|raw.data| < |left| ==> !raw.end.Eof?)
            && (!raw.end.Eof? ==> r.end == raw.end && !next.verified)
            && (raw.end.Eof? ==> r.end == if hash(whole) == diffid then Eof else Failed)
  {
    NotTheEnd(left, rest);
    var data := rest[0].data;
    assert (v.fed + data) + left[|data|..] == v.fed + left;
    if rest[0].end.Eof? {
      assert v.fed + data == whole;
    }
  }

  /** The reading half of that, through a verifying reader that has seen all of `whole` before `stream`. The digest
      counts when the reply with the last byte also ends the stream, and the consumer looks at its error. */
  method ReadExactly(reader: VerifyingReader, need: nat, strict: bool, ghost whole: Bytes, ghost stream: Bytes,
                     replies: seq<Reply>)
    returns (got: Bytes, rest: seq<Reply>, ok: bool)
    requires Faithful(stream, replies) && need <= |stream|
    requires need > 0 ==> !reader.verified && reader.fed + stream == whole
    modifies reader
    ensures got == Exactly(need, strict, replies).0 && rest == Exactly(need, strict, replies).1
    ensures ok <==>
              && Exactly(need, strict, replies).2
              && (strict && LastEnd(need, replies).Eof? ==> reader.hash(whole) == reader.diffid)
    ensures 0 < need < |stream| && ok ==> !reader.verified && reader.fed + stream[need..] == whole
    ensures need == 0 ==> reader.View() == old(reader.View())
  {
    NothingToRead(strict, replies);
    if need == 0 {
      return [], replies, true;
    }
    assert [] + Exactly(need, strict, replies).0 == Exactly(need, strict, replies).0;
    got, rest := [], replies;
    ghost var end := LastEnd(need, replies);
    ghost var (bytes, last, fine) := Exactly(need, strict, replies);
    assert Reading([], need, strict, replies) == (bytes, last, fine);
    hide Exactly, Faithful, LastEnd, Reading, Checked;
    assert stream[|got|..] == stream;
    while true
      invariant |got| < need && Faithful(stream[|got|..], rest)
      invariant !reader.verified && reader.fed + stream[|got|..] == whole
      invariant LastEnd(need - |got|, rest) == end && Reading(got, need - |got|, strict, rest) == (bytes, last, fine)
      decreases |rest|
    {
      var missing := need - |got|;
      ReadOnce(got, missing, strict, rest);
      if rest == [] {
        return got, [], false;
      }
      CheckedOnce(reader.hash, reader.diffid, reader.View(), whole, stream[|got|..], rest);
      ghost var at := |got|;
      var reply := reader.Read(rest[0]);
      rest := rest[1..];
      if |reply.data| > missing {
        return got, rest, false;
      }
      got := got + reply.data;
      assert stream[at..][|reply.data|..] == stream[|got|..];
      if |reply.data| == missing {
        return got, rest, !strict || !reply.end.Failed?;
      }
      if !reply.end.More? {
        return got, rest, false;
      }
    }
  }

  lemma NotTheEnd(stream: Bytes, replies: seq<Reply>)
    requires replies != [] && Faithful(stream, replies)
    ensures replies[0].data <= stream && Faithful(stream[|replies[0].data|..], replies[1..])
    ensures |replies[0].data| < |stream| ==> !replies[0].end.Eof?
  {
  }

  /** extractLayer: the tar reader takes the header and then the entry's bytes, and asks for nothing more. The digest
      of the stream counts only if the entry is not empty, nothing follows it, and the stream's end is announced with
      its last byte. A tar stream goes on after its last entry (at the least with two blocks of zeros); then no digest
      and no diff ID matters: the extraction succeeds on the same streams, with the same file, as if nothing were
      verified. */
  method ExtractLayer(hash: Bytes -> string, diffid: string, ghost stream: Bytes, head: nat, size: nat,
                      replies: seq<Reply>)
    returns (file: Result<Bytes>)
    requires Faithful(stream, replies) && head + size <= |stream|
    ensures var (_, rest, begun) := Exactly(head, false, replies);
            var (body, _, ok) := Exactly(size, true, rest);
            && (file.Ok? <==> begun && ok && (LastEnd(size, rest).Eof? ==> hash(stream) == diffid))
            && (begun && ok && LastEnd(size, rest).Eof? ==> size > 0 && head + size == |stream|)
            && (file.Ok? ==> file.value == body == stream[head..head + size])
  {
    var reader := new VerifyingReader(hash, diffid);
    ExactlyDelivers(head, false, stream, replies);
    assert [] + stream == stream;
    hide Exactly, Faithful, LastEnd;
    var header, rest, begun := ReadExactly(reader, head, false, stream, stream, replies);
    if !begun {
      return Err("tar header");
    }
    ExactlyDelivers(size, true, stream[head..], rest);
    EofIsLast(size, true, stream[head..], rest);
    NothingToRead(true, rest);
    var body, _, ok := ReadExactly(reader, size, true, stream, stream[head..], rest);
    if !ok {
      return Err("read error");
    }
    assert stream[head..][..size] == stream[head..head + size];
    return Ok(body);
  }
}
