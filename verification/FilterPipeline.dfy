/** FilterPipeline::Apply (filter_pipeline.cpp): stages over pooled buffers, against plain
    composition of the filters. */
module FilterPipeline {
  import opened Common
  import opened BufferPool

  datatype FilterType = GRAYSCALE | BLUR | MODEL_INFERENCE

  /** An image by value: the bytes of one frame. */
  datatype Image = Image(width: int, height: int, channels: int, data: seq<byte>)

  /** A filter as the pipeline sees it: given an image and the channel count of the view it
      writes to, it fails or produces the bytes of that view. */
  datatype Filter = Filter(kind: FilterType, transform: (Image, int) -> Option<seq<byte>>)

  function Size(width: int, height: int, channels: int): int {
    width * height * channels
  }

  /** A filter that succeeds fills its output view. */
  ghost predicate Lawful(f: Filter) {
    forall image, channels :: f.transform(image, channels).Some? ==>
      |f.transform(image, channels).value| == Size(image.width, image.height, channels)
  }

  function NextChannels(f: Filter, channels: int): int {
    if f.kind == GRAYSCALE then 1 else channels
  }

  /** The channel count after the filters `fs`. */
  function FoldedChannels(fs: seq<Filter>, channels: int): int {
    if fs == [] then channels else FoldedChannels(fs[1..], NextChannels(fs[0], channels))
  }

  function Stage(f: Filter, image: Image, channels: int): Option<Image> {
    match f.transform(image, channels)
    case None => None
    case Some(data) => Some(Image(image.width, image.height, channels, data))
  }

  /** Plain composition: each filter applied to the result of the one before, the last one
      into a view of `channels` channels. */
  function Composed(fs: seq<Filter>, image: Image, channels: int): Option<Image>
    requires fs != []
  {
    if |fs| == 1 then Stage(fs[0], image, channels)
    else
      match Stage(fs[0], image, NextChannels(fs[0], image.channels))
      case None => None
      case Some(next) => Composed(fs[1..], next, channels)
  }

  /** The image after the first `i` filters, each into the channel count it calls for. */
  function Intermediate(fs: seq<Filter>, i: nat, image: Image): Option<Image>
    requires i <= |fs|
  {
    if i == 0 then Some(image)
    else
      match Intermediate(fs, i - 1, image)
      case None => None
      case Some(prev) => Stage(fs[i - 1], prev, NextChannels(fs[i - 1], prev.channels))
  }

  lemma {:induction false} StaysNone(fs: seq<Filter>, i: nat, j: nat, image: Image)
    requires i <= j <= |fs| && Intermediate(fs, i, image).None?
    ensures Intermediate(fs, j, image).None?
  {
    if i < j {
      StaysNone(fs, i, j - 1, image);
    }
  }

  lemma {:induction false} IntermediateShift(fs: seq<Filter>, i: nat, image: Image)
    requires 1 <= i <= |fs|
    ensures Intermediate(fs, i, image) ==
            match Stage(fs[0], image, NextChannels(fs[0], image.channels))
            case None => None
            case Some(next) => Intermediate(fs[1..], i - 1, next)
  {
    if i > 1 {
      IntermediateShift(fs, i - 1, image);
      assert fs[1..][i - 2] == fs[i - 1];
    }
  }

  /** Composition is: run all but the last filter, then the last into the output view. */
  lemma {:induction false} ComposedIsLastOfIntermediate(fs: seq<Filter>, image: Image, channels: int)
    requires fs != []
    ensures Composed(fs, image, channels) ==
            match Intermediate(fs, |fs| - 1, image)
            case None => None
            case Some(prev) => Stage(fs[|fs| - 1], prev, channels)
  {
    if |fs| > 1 {
      IntermediateShift(fs, |fs| - 1, image);
      match Stage(fs[0], image, NextChannels(fs[0], image.channels))
      case None =>
      case Some(next) =>
        ComposedIsLastOfIntermediate(fs[1..], next, channels);
    }
  }

  /** Filter `i` turns image `i` into the bytes of image `i + 1`, of the same width and height.
      It is given the channel count it calls for, or, if it is the last one, `channels`. */
  ghost predicate Links(fs: seq<Filter>, m: seq<Image>, channels: int, i: nat)
    requires i < |fs| && |m| == |fs| + 1
  {
    var before, after := m[i], m[i + 1];
    && after.width == before.width && after.height == before.height
    && after.channels ==
       (if i == |fs| - 1 then channels else if fs[i].kind == GRAYSCALE then 1 else before.channels)
    && fs[i].transform(Image(before.width, before.height, before.channels, before.data), after.channels)
       == Some(after.data)
  }

  /** What is composed is what a chain of images shows that begins with the input. */
  lemma {:induction false} ComposedIsChain(fs: seq<Filter>, image: Image, channels: int) returns (m: seq<Image>)
    requires fs != [] && Composed(fs, image, channels).Some?
    ensures |m| == |fs| + 1 && m[0] == image && Composed(fs, image, channels) == Some(m[|fs|])
    ensures forall i :: 0 <= i < |fs| ==> Links(fs, m, channels, i)
  {
    if |fs| == 1 {
      m := [image, Stage(fs[0], image, channels).value];
    } else {
      var next := Stage(fs[0], image, NextChannels(fs[0], image.channels)).value;
      var rest := ComposedIsChain(fs[1..], next, channels);
      m := [image] + rest;
      forall i | 0 < i < |fs|
        ensures Links(fs, m, channels, i)
      {
        assert Links(fs[1..], rest, channels, i - 1);
      }
      assert Links(fs, m, channels, 0);
    }
  }

  /** And every such chain is the composition, which is defined if there is one. */
  lemma {:induction false} ChainIsComposed(fs: seq<Filter>, m: seq<Image>, channels: int)
    requires fs != [] && |m| == |fs| + 1 && forall i :: 0 <= i < |fs| ==> Links(fs, m, channels, i)
    ensures Composed(fs, m[0], channels) == Some(m[|fs|])
  {
    assert Links(fs, m, channels, 0);
    if |fs| > 1 {
      forall i | 0 <= i < |fs| - 1
        ensures Links(fs[1..], m[1..], channels, i)
      {
        assert Links(fs, m, channels, i + 1);
      }
      ChainIsComposed(fs[1..], m[1..], channels);
    }
  }

  lemma {:induction false} IntermediateShape(fs: seq<Filter>, i: nat, image: Image)
    requires i <= |fs| && forall f :: f in fs ==> Lawful(f)
    requires |image.data| == Size(image.width, image.height, image.channels)
    ensures Intermediate(fs, i, image).Some? ==>
              var r := Intermediate(fs, i, image).value;
              && r.width == image.width && r.height == image.height
              && |r.data| == Size(r.width, r.height, r.channels)
              && r.channels == FoldedChannels(fs[..i], image.channels)
  {
    if i == 0 {
    } else {
      IntermediateShape(fs, i - 1, image);
      FoldedAppend(fs[..i - 1], fs[i - 1], image.channels);
      assert fs[..i] == fs[..i - 1] + [fs[i - 1]];
      assert fs[i - 1] in fs;
    }
  }

  lemma {:induction false} FoldedAppend(fs: seq<Filter>, f: Filter, channels: int)
    ensures FoldedChannels(fs + [f], channels) == NextChannels(f, FoldedChannels(fs, channels))
  {
    if fs == [] {
      assert fs + [f] == [f];
    } else {
      assert (fs + [f])[1..] == fs[1..] + [f];
      FoldedAppend(fs[1..], f, NextChannels(fs[0], channels));
    }
  }

  /** Splitting a pipeline in two changes nothing, when the first part writes the channel
      count its filters call for. */
  lemma {:induction false} ComposedSplits(fs: seq<Filter>, gs: seq<Filter>, image: Image, channels: int)
    requires fs != [] && gs != []
    ensures Composed(fs + gs, image, channels) ==
            match Composed(fs, image, FoldedChannels(fs, image.channels))
            case None => None
            case Some(mid) => Composed(gs, mid, channels)
  {
    assert (fs + gs)[0] == fs[0] && (fs + gs)[1..] == fs[1..] + gs;
    if |fs| == 1 {
      assert fs[1..] + gs == gs && FoldedChannels(fs, image.channels) == NextChannels(fs[0], image.channels);
    } else {
      match Stage(fs[0], image, NextChannels(fs[0], image.channels))
      case None =>
      case Some(next) =>
        ComposedSplits(fs[1..], gs, next, channels);
    }
  }

  // ---- Views of memory ----------------------------------------------------------------

  datatype View = View(data: array?<byte>, width: int, height: int, channels: int) {
    predicate IsValid() {
      data != null && width > 0 && height > 0 && channels > 0
    }

    function Extent(): int {
      Size(width, height, channels)
    }
  }

  lemma SizePositive(width: int, height: int, channels: int)
    requires width > 0 && height > 0 && channels > 0
    ensures Size(width, height, channels) > 0
  {
  }

  /** A valid view covers memory that exists. */
  ghost predicate Backed(v: View) {
    v.IsValid() ==> v.data.Length >= v.Extent()
  }

  function Seen(v: View): Image
    requires v.IsValid() && v.data.Length >= v.Extent() >= 0
    reads v.data
  {
    Image(v.width, v.height, v.channels, v.data[..v.Extent()])
  }

  /** IFilter::Apply on two views that do not share memory. On success the output view holds
      the result; on failure it may hold anything. Memory past the view is never written. */
  method RunFilter(f: Filter, input: View, output: View) returns (ok: bool)
    requires Lawful(f) && input.IsValid() && output.IsValid() && Backed(input) && Backed(output)
    requires input.width == output.width && input.height == output.height
    requires input.Extent() >= 0 && output.Extent() >= 0
    requires input.data != output.data
    modifies output.data
    ensures var image := Image(input.width, input.height, input.channels,
                               input.data[..input.width * input.height * input.channels]);
            && ok == f.transform(image, output.channels).Some?
            && (ok ==> f.transform(image, output.channels) ==
                       Some(output.data[..output.width * output.height * output.channels]))
    ensures ok == Stage(f, Seen(input), output.channels).Some?
    ensures ok ==> Some(Seen(output)) == Stage(f, Seen(input), output.channels)
    ensures output.data[output.Extent()..] == old(output.data[output.Extent()..])
  {
    var n := output.Extent();
    var image := Seen(input);
    var result := f.transform(image, output.channels);
    for k := 0 to n
      invariant result.Some? ==> output.data[..k] == result.value[..k]
      invariant output.data[n..] == old(output.data[n..])
      invariant Seen(input) == image
    {
      match result {
        case Some(data) => output.data[k] := data[k];
        case None => output.data[k] := *;
      }
    }
    ok := result.Some?;
    if ok {
      assert |result.value| == n && result.value[..n] == result.value;
    }
  }

  /** The same filter given one buffer as input and output: it reads what it may have written,
      so nothing is known of the view afterwards. */
  method RunInPlace(f: Filter, input: View, output: View) returns (ok: bool)
    requires Lawful(f) && input.IsValid() && output.IsValid() && Backed(output)
    requires input.data == output.data && output.Extent() >= 0
    modifies output.data
    ensures output.data[output.Extent()..] == old(output.data[output.Extent()..])
  {
    var n := output.Extent();
    for k := 0 to n
      invariant output.data[n..] == old(output.data[n..])
    {
      output.data[k] := *;
    }
    ok := *;
  }

  // ---- The pipeline -------------------------------------------------------------------

  predicate SameSize(a: View, b: View) {
    a.width == b.width && a.height == b.height
  }

  /** The stages before the last succeed and the output has the size of the input. */
  predicate ReachesOutput(fs: seq<Filter>, input: View, output: View, image: Image)
    requires fs != []
  {
    SameSize(input, output) && Intermediate(fs, |fs| - 1, image).Some?
  }

  /** The exit that keeps the buffers of the earlier stages. */
  predicate LeaksBuffers(fs: seq<Filter>, input: View, output: View, image: Image)
    requires fs != []
  {
    !SameSize(input, output) && Intermediate(fs, |fs| - 1, image).Some?
  }

  class Pipeline {
    var filters: seq<Filter>
    const pool: Pool

    ghost predicate Valid()
      reads this, pool
    {
      pool.Valid() && forall f :: f in filters ==> Lawful(f)
    }

    constructor (pool: Pool)
      requires pool.Valid()
      ensures Valid() && this.pool == pool && filters == []
    {
      this.pool := pool;
      filters := [];
    }

    method AddFilter(f: Filter)
      requires Valid() && Lawful(f)
      modifies this
      ensures Valid() && filters == old(filters) + [f]
    {
      filters := filters + [f];
    }

    method ReleaseAll(buffers: seq<Buffer>, ghost kept: seq<Buffer>)
      requires pool.Valid() && pool.inUse == kept + buffers
      modifies pool
      ensures pool.Valid() && pool.inUse == kept && pool.available == old(pool.available) + buffers
    {
      for i := 0 to |buffers|
        invariant pool.Valid()
        invariant pool.inUse == kept + buffers[i..]
        invariant pool.available == old(pool.available) + buffers[..i]
      {
        assert pool.inUse[|kept|] == buffers[i];
        assert Removed(pool.inUse, |kept|) == kept + buffers[i + 1..];
        pool.Release(buffers[i]);
        assert buffers[..i + 1] == buffers[..i] + [buffers[i]];
      }
    }

    /** A stage before the last writes into a buffer taken from the pool, of whatever size
        and contents at or above what it needs. */
    method MiddleStage(filter: Filter, current: View) returns (done: bool, buffer: Buffer, target: View)
      requires pool.Valid() && Lawful(filter)
      requires current.IsValid() && Backed(current) && current.data !in pool.available
      modifies pool, pool.Free()
      ensures pool.Valid() && pool.inUse == old(pool.inUse) + [buffer]
      ensures buffer in old(pool.Free()) || fresh(buffer)
      ensures pool.Free() <= old(pool.Free())
      ensures target == View(buffer, current.width, current.height, NextChannels(filter, current.channels))
      ensures target.IsValid() && Backed(target) && buffer != current.data && buffer !in pool.available
      ensures Seen(current) == old(Seen(current))
      ensures (if done then Some(Seen(target)) else None) == Stage(filter, Seen(current), target.channels)
    {
      var nextChannels := if filter.kind == GRAYSCALE then 1 else current.channels;
      SizePositive(current.width, current.height, nextChannels);
      SizePositive(current.width, current.height, current.channels);
      ghost var free := pool.Free();
      buffer := pool.Acquire(Size(current.width, current.height, nextChannels));
      assert buffer in free || fresh(buffer);
      target := View(buffer, current.width, current.height, nextChannels);
      done := RunFilter(filter, current, target);
    }

    /** The last stage writes to the caller's output, unless that has another size, in which
        case the buffers of the stages before are not given back. */
    method LastStage(filter: Filter, current: View, output: View, buffers: seq<Buffer>, ghost kept: seq<Buffer>)
      returns (ok: bool)
      requires pool.Valid() && pool.inUse == kept + buffers && Lawful(filter)
      requires current.IsValid() && output.IsValid() && Backed(current) && Backed(output)
      requires current.Extent() >= 0 && output.Extent() >= 0
      modifies pool, output.data
      ensures pool.Valid()
      ensures SameSize(current, output) ==>
                pool.available == old(pool.available) + buffers && pool.inUse == kept
      ensures !SameSize(current, output) ==>
                && !ok && pool.available == old(pool.available) && pool.inUse == old(pool.inUse)
                && output.data[..] == old(output.data[..])
      ensures SameSize(current, output) && current.data != output.data ==>
                && ok == Stage(filter, old(Seen(current)), output.channels).Some?
                && (ok ==> Some(Seen(output)) == Stage(filter, old(Seen(current)), output.channels))
      ensures output.data[output.Extent()..] == old(output.data[output.Extent()..])
    {
      hide Stage, NoRepeats;
      if output.width != current.width || output.height != current.height {
        return false;
      }
      if current.data == output.data {
        ok := RunInPlace(filter, current, output);
      } else {
        ok := RunFilter(filter, current, output);
      }
      ReleaseAll(buffers, kept);
    }

    /** On success the output is the plain composition of the filters on the input, whatever
        the pooled buffers held before. Nothing is written to the output before the last
        stage runs, so the output may be the input's own buffer unless the first stage is the
        last. The buffers taken all go back, on every exit but one: when the last stage finds
        the output to have another size after earlier stages have run. */
    method Apply(input: View, output: View) returns (ok: bool)
      requires Valid() && Backed(input) && Backed(output)
      requires input.data !in pool.Buffers() && output.data !in pool.Buffers()
      modifies pool, pool.Free(), output.data
      ensures Valid()
      ensures filters == [] || !input.IsValid() || !output.IsValid() ==>
                && !ok && pool.available == old(pool.available) && pool.inUse == old(pool.inUse)
                && (output.data != null ==> output.data[..] == old(output.data[..]))
      ensures filters != [] && input.IsValid() && output.IsValid() ==>
                var bytes := old(input.data[..input.width * input.height * input.channels]);
                var image := Image(input.width, input.height, input.channels, bytes);
                var same := input.width == output.width && input.height == output.height;
                && (input.data != output.data ==> input.data[..|bytes|] == bytes)
                && (ok ==> same)
                && (input.data != output.data || |filters| > 1 ==>
                      && (ok <==> same && Composed(filters, image, output.channels).Some?)
                      && (ok ==> Composed(filters, image, output.channels) ==
                                 Some(Image(output.width, output.height, output.channels,
                                            output.data[..output.width * output.height * output.channels]))))
                && output.data[output.Extent()..] == old(output.data[output.Extent()..])
                && (!ReachesOutput(filters, input, output, image) ==> output.data[..] == old(output.data[..]))
                && (!LeaksBuffers(filters, input, output, image) ==> pool.inUse == old(pool.inUse))
                && (LeaksBuffers(filters, input, output, image) ==>
                      old(pool.inUse) <= pool.inUse && |pool.inUse| == |old(pool.inUse)| + |filters| - 1)
    {
      hide Composed, Stage, NoRepeats, FoldedChannels;
      if filters == [] {
        return false;
      }
      if !input.IsValid() || !output.IsValid() {
        return false;
      }
      SizePositive(input.width, input.height, input.channels);
      SizePositive(output.width, output.height, output.channels);
      ghost var image := Seen(input);
      ghost var n := |filters|;
      ghost var kept := pool.inUse;
      ComposedIsLastOfIntermediate(filters, image, output.channels);
      var current := input;
      var intermediates: seq<Buffer> := [];
      for i := 0 to |filters|
        invariant i < n
        invariant pool.Valid() && pool.inUse == kept + intermediates && |intermediates| == i
        invariant pool.Free() <= old(pool.Free())
        invariant current.IsValid() && Backed(current) && SameSize(current, input)
        invariant current.data !in pool.available
        invariant if i == 0 then current == input else current.data != output.data
        invariant Intermediate(filters, i, image) == Some(Seen(current))
        invariant Seen(input) == image && output.data[..] == old(output.data[..])
      {
        if i == |filters| - 1 {
          SizePositive(current.width, current.height, current.channels);
          ok := LastStage(filters[i], current, output, intermediates, kept);
          return;
        }
        var done, buffer, target := MiddleStage(filters[i], current);
        intermediates := intermediates + [buffer];
        if !done {
          StaysNone(filters, i + 1, n - 1, image);
          ReleaseAll(intermediates, kept);
          return false;
        }
        current := target;
      }
    }
  }

  /** A filter that succeeds with a black view, where there can be one. */
  function Black(image: Image, channels: int): Option<seq<byte>> {
    var size := Size(image.width, image.height, channels);
    if size < 0 then None else Some(seq(size, _ => 0))
  }

  /** Such a call: two filters, and an output of another width than the input. It fails, and the
      buffer of the first stage stays in use. */
  method LeakingCall() returns (ok: bool, lost: nat)
    ensures !ok && lost == 1
  {
    var pool := new Pool();
    var pipeline := new Pipeline(pool);
    pipeline.AddFilter(Filter(BLUR, Black));
    pipeline.AddFilter(Filter(BLUR, Black));
    var source, target := new byte[1](_ => 0), new byte[2](_ => 0);
    var input, output := View(source, 1, 1, 1), View(target, 2, 1, 1);
    ghost var image := Seen(input);
    assert Intermediate(pipeline.filters, 0, image) == Some(image);
    assert LeaksBuffers(pipeline.filters, input, output, image);
    ok := pipeline.Apply(input, output);
    lost := |pool.inUse|;
  }
}
