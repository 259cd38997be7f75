/** The microphone worklet (mic-processor.js): quantised samples posted in blocks of 1024. */
module MicCapture {
  import opened Common
  import opened Samples

  const BLOCK := 1024

  function Flatten(blocks: seq<seq<int>>): seq<int> {
    if blocks == [] then [] else Flatten(blocks[..|blocks| - 1]) + blocks[|blocks| - 1]
  }

  /** The stream cut into whole blocks; what is left over is not posted. */
  function WholeBlocks(s: seq<int>): seq<seq<int>> {
    if |s| < BLOCK then [] else [s[..BLOCK]] + WholeBlocks(s[BLOCK..])
  }

  class MicProcessor {
    var buffer: array<int>
    var offset: nat
    var posted: seq<seq<int>>  // messages on the port
    ghost var received: seq<int>  // all input samples, quantised

    ghost predicate Valid()
      reads this, buffer
    {
      buffer.Length == BLOCK && offset < BLOCK &&
      (forall b :: b in posted ==> |b| == BLOCK) &&
      received == Flatten(posted) + buffer[..offset]
    }

    constructor ()
      ensures Valid() && fresh(buffer) && posted == [] && received == []
    {
      buffer := new int[BLOCK](_ => 0);
      offset, posted, received := 0, [], [];
    }

    /** process: an absent channel is ignored; every sample is buffered or posted, once. */
    method Process(input: Option<seq<real>>)
      requires Valid()
      modifies this, buffer
      ensures Valid() && (buffer == old(buffer) || fresh(buffer))
      ensures received == old(received) + if input.Some? then QuantiseAll(input.value) else []
      ensures old(posted) <= posted == WholeBlocks(received)
    {
      hide Flatten, WholeBlocks, Quantise;
      if input.None? {
        PostedAreWholeBlocks(posted, buffer[..offset], received);
        return;
      }
      var channelData := input.value;
      for i := 0 to |channelData|
        invariant Valid() && (buffer == old(buffer) || fresh(buffer))
        invariant received == old(received) + QuantiseAll(channelData)[..i]
        invariant old(posted) <= posted
      {
        Push(Quantise(channelData[i]));
      }
      PostedAreWholeBlocks(posted, buffer[..offset], received);
    }

    /** Lines 24-31. */
    method Push(val: int)
      requires Valid()
      modifies this, buffer
      ensures Valid() && (buffer == old(buffer) || fresh(buffer))
      ensures received == old(received) + [val] && old(posted) <= posted
    {
      hide Flatten;
      ghost var before := buffer[..offset];
      buffer[offset] := val;
      offset := offset + 1;
      received := received + [val];
      assert buffer[..offset] == before + [val];
      if offset >= BLOCK {
        FlattenSnoc(posted, buffer[..]);
        assert buffer[..] == buffer[..offset];
        posted := posted + [buffer[..]];
        buffer := new int[BLOCK](_ => 0);
        offset := 0;
      }
    }
  }

  lemma FlattenSnoc(blocks: seq<seq<int>>, b: seq<int>)
    ensures Flatten(blocks + [b]) == Flatten(blocks) + b
  {
    assert (blocks + [b])[..|blocks|] == blocks;
  }

  /** The posted messages depend on the input stream alone, not on how the audio thread cut
      it into frames: they are its whole blocks, in order, and nothing is lost or repeated. */
  lemma {:induction false} PostedAreWholeBlocks(posted: seq<seq<int>>, rest: seq<int>, received: seq<int>)
    requires forall b :: b in posted ==> |b| == BLOCK
    requires |rest| < BLOCK && received == Flatten(posted) + rest
    ensures posted == WholeBlocks(received)
    ensures BLOCK * |posted| <= |received| && rest == received[BLOCK * |posted|..]
  {
    hide Flatten, WholeBlocks;
    if posted == [] {
      NoBlocks(rest);
    } else {
      var b, more := posted[0], posted[1..];
      assert b in posted && forall c :: c in more ==> c in posted;
      FlattenCons(b, more);
      assert [b] + more == posted;
      var tail := Flatten(more) + rest;
      assert received == b + tail;
      WholeBlocksCons(b, tail);
      PostedAreWholeBlocks(more, rest, tail);
      RestOfRest(b, tail, BLOCK * |more|);
    }
  }

  lemma NoBlocks(rest: seq<int>)
    requires |rest| < BLOCK
    ensures Flatten([]) == [] && Flatten([]) + rest == rest && WholeBlocks(rest) == []
  {
  }

  lemma RestOfRest(b: seq<int>, s: seq<int>, k: nat)
    requires k <= |s|
    ensures (b + s)[|b| + k..] == s[k..]
  {
  }

  lemma WholeBlocksCons(b: seq<int>, s: seq<int>)
    requires |b| == BLOCK
    ensures WholeBlocks(b + s) == [b] + WholeBlocks(s)
  {
    assert (b + s)[..BLOCK] == b && (b + s)[BLOCK..] == s;
  }

  lemma {:induction false} FlattenCons(b: seq<int>, blocks: seq<seq<int>>)
    ensures Flatten([b] + blocks) == b + Flatten(blocks)
  {
    if blocks == [] {
      assert [b] + blocks == [b] && [b][..0] == [];
    } else {
      var n := |blocks| - 1;
      var init, last := blocks[..n], blocks[n];
      hide Flatten;
      FlattenCons(b, init);
      FlattenSnoc(init, last);
      FlattenSnoc([b] + init, last);
      assert blocks == init + [last] && [b] + blocks == ([b] + init) + [last];
      assert (b + Flatten(init)) + last == b + (Flatten(init) + last);
    }
  }

  /** The blocks of a stream: as many as 1024 goes into it, the i-th from 1024 * i on. */
  lemma {:induction false} BlocksInPlace(s: seq<int>)
    ensures |WholeBlocks(s)| == |s| / 1024
    ensures forall i :: 0 <= i < |s| / 1024 ==> WholeBlocks(s)[i] == s[1024 * i..1024 * i + 1024]
    decreases |s|
  {
    if |s| >= 1024 {
      var rest := s[1024..];
      BlocksInPlace(rest);
      forall i | 0 <= i < |s| / 1024 ensures WholeBlocks(s)[i] == s[1024 * i..1024 * i + 1024] {
        if i > 0 {
          assert WholeBlocks(s)[i] == WholeBlocks(rest)[i - 1];
          assert rest[1024 * (i - 1)..1024 * (i - 1) + 1024] == s[1024 * i..1024 * i + 1024];
        }
      }
    }
  }
}
