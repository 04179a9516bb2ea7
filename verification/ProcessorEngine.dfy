/** ProcessorEngine::ApplyFilters (processor_engine.cpp): which filters run, how the output
    is sized, and what the response holds. */
module ProcessorEngine {
  import opened Common
  import BufferPool
  import opened FilterPipeline

  datatype RequestedFilter = None_ | Grayscale | Blur | ModelInference | Unknown

  datatype Request =
    Request(filters: seq<RequestedFilter>, imageData: seq<byte>, width: int, height: int, channels: int)

  datatype Response = Response(code: int, imageData: seq<byte>, width: int, height: int, channels: int)

  /** CreateFilter of the selected factory, per position in the request; None stands for a
      missing factory or a filter the accelerator does not support. */
  type Factory = (nat, FilterType) -> Option<Filter>

  ghost predicate Honest(create: Factory) {
    forall i, kind :: create(i, kind).Some? ==> Lawful(create(i, kind).value) && create(i, kind).value.kind == kind
  }

  /** The filters that the first `n` entries of the request put into the pipeline. */
  function Created(filters: seq<RequestedFilter>, create: Factory, n: nat): seq<Filter>
    requires n <= |filters|
  {
    if n == 0 then []
    else
      var made :=
        match filters[n - 1]
        case Grayscale => create(n - 1, GRAYSCALE)
        case Blur => create(n - 1, BLUR)
        case _ => None;
      Created(filters, create, n - 1) + if made.Some? then [made.value] else []
  }

  /** `made` are the filters made at the `positions`, in the order of the request: one for each
      entry that asks for grayscale or blur and gets the filter it asks for, and no other. */
  ghost predicate MadeAt(made: seq<Filter>, filters: seq<RequestedFilter>, create: Factory, n: nat,
                         positions: seq<nat>)
    requires n <= |filters|
  {
    && (forall j, k :: 0 <= j < k < |positions| ==> positions[j] < positions[k])
    && (forall i: nat :: i in positions <==>
          && i < n
          && ((filters[i] == Grayscale && create(i, GRAYSCALE).Some?) ||
              (filters[i] == Blur && create(i, BLUR).Some?)))
    && |made| == |positions|
    && (forall k :: 0 <= k < |positions| ==>
          && positions[k] < n
          && Some(made[k]) == create(positions[k], if filters[positions[k]] == Grayscale then GRAYSCALE else BLUR))
  }

  lemma MadeNext(made: seq<Filter>, filters: seq<RequestedFilter>, create: Factory, n: nat, positions: seq<nat>,
                 kind: FilterType)
    requires n < |filters| && MadeAt(made, filters, create, n, positions)
    requires (filters[n] == Grayscale && kind == GRAYSCALE) || (filters[n] == Blur && kind == BLUR)
    requires create(n, kind).Some?
    ensures MadeAt(made + [create(n, kind).value], filters, create, n + 1, positions + [n])
  {
    var more := positions + [n];
    forall j, k | 0 <= j < k < |more|
      ensures more[j] < more[k]
    {
      assert positions[j] in positions;
    }
    forall k | 0 <= k < |positions|
      ensures positions[k] < n
    {
      assert positions[k] in positions;
    }
  }

  lemma MadeNone(made: seq<Filter>, filters: seq<RequestedFilter>, create: Factory, n: nat, positions: seq<nat>)
    requires n < |filters| && MadeAt(made, filters, create, n, positions)
    requires !(filters[n] == Grayscale && create(n, GRAYSCALE).Some?)
    requires !(filters[n] == Blur && create(n, BLUR).Some?)
    ensures MadeAt(made, filters, create, n + 1, positions)
  {
  }

  lemma {:induction false} CreatedInOrder(filters: seq<RequestedFilter>, create: Factory, n: nat)
    returns (positions: seq<nat>)
    requires n <= |filters|
    ensures MadeAt(Created(filters, create, n), filters, create, n, positions)
  {
    positions := [];
    if n > 0 {
      hide MadeAt;
      positions := CreatedInOrder(filters, create, n - 1);
      var before := Created(filters, create, n - 1);
      if filters[n - 1] == Grayscale && create(n - 1, GRAYSCALE).Some? {
        MadeNext(before, filters, create, n - 1, positions, GRAYSCALE);
        positions := positions + [n - 1];
      } else if filters[n - 1] == Blur && create(n - 1, BLUR).Some? {
        MadeNext(before, filters, create, n - 1, positions, BLUR);
        positions := positions + [n - 1];
      } else {
        MadeNone(before, filters, create, n - 1, positions);
        assert before + [] == before;
      }
    }
  }

  /** The channel count the engine sizes its output for, without asking the pipeline. */
  function OutputChannels(request: Request): int {
    if Grayscale in request.filters then 1 else request.channels
  }

  /** Some requested grayscale filter was really created. */
  ghost predicate GrayscaleMade(request: Request, create: Factory) {
    exists i :: 0 <= i < |request.filters| && request.filters[i] == Grayscale && create(i, GRAYSCALE).Some?
  }

  lemma {:induction false} FoldedIsOneIfGray(fs: seq<Filter>, channels: int)
    ensures FoldedChannels(fs, channels) ==
            if exists f :: f in fs && f.kind == GRAYSCALE then 1 else channels
  {
    if fs != [] {
      assert fs == [fs[0]] + fs[1..];
      FoldedIsOneIfGray(fs[1..], NextChannels(fs[0], channels));
    }
  }

  lemma {:induction false} CreatedGray(filters: seq<RequestedFilter>, create: Factory, n: nat)
    requires n <= |filters| && Honest(create)
    ensures (exists f :: f in Created(filters, create, n) && f.kind == GRAYSCALE) <==>
            (exists i :: 0 <= i < n && filters[i] == Grayscale && create(i, GRAYSCALE).Some?)
    ensures forall f :: f in Created(filters, create, n) ==> Lawful(f)
  {
    if n > 0 {
      CreatedGray(filters, create, n - 1);
      var before, after := Created(filters, create, n - 1), Created(filters, create, n);
      assert forall f :: f in before ==> f in after;
      if filters[n - 1] == Grayscale && create(n - 1, GRAYSCALE).Some? {
        assert create(n - 1, GRAYSCALE).value in after;
      }
    }
  }

  /** The two channel computations agree exactly when the image has one channel already or
      no grayscale request was dropped entirely. */
  lemma ChannelsAgreeIff(request: Request, create: Factory)
    requires Honest(create)
    ensures OutputChannels(request) ==
            FoldedChannels(Created(request.filters, create, |request.filters|), request.channels)
            <==> request.channels == 1 || (Grayscale in request.filters ==> GrayscaleMade(request, create))
  {
    CreatedGray(request.filters, create, |request.filters|);
    FoldedIsOneIfGray(Created(request.filters, create, |request.filters|), request.channels);
    if GrayscaleMade(request, create) {
      var i :| 0 <= i < |request.filters| && request.filters[i] == Grayscale && create(i, GRAYSCALE).Some?;
      assert request.filters[i] in request.filters;
    }
  }

  lemma ChannelsAgree(request: Request, create: Factory)
    requires Honest(create)
    requires forall i :: 0 <= i < |request.filters| && request.filters[i] == Grayscale ==> create(i, GRAYSCALE).Some?
    ensures OutputChannels(request) ==
            FoldedChannels(Created(request.filters, create, |request.filters|), request.channels)
  {
    ChannelsAgreeIff(request, create);
    if Grayscale in request.filters {
      var i :| 0 <= i < |request.filters| && request.filters[i] == Grayscale;
      assert create(i, GRAYSCALE).Some?;
    }
  }

  /** When they agree, the last stage too writes the channel count its filter calls for. */
  lemma AgreementFeedsEveryFilter(fs: seq<Filter>, image: Image, channels: int)
    requires fs != [] && (forall f :: f in fs ==> Lawful(f)) && channels == FoldedChannels(fs, image.channels)
    requires |image.data| == Size(image.width, image.height, image.channels)
    ensures Composed(fs, image, channels) == Intermediate(fs, |fs|, image)
  {
    var n := |fs| - 1;
    ComposedIsLastOfIntermediate(fs, image, channels);
    IntermediateShape(fs, n, image);
    FoldedAppend(fs[..n], fs[n], image.channels);
    assert fs == fs[..n] + [fs[n]];
  }

  // ---- The response -------------------------------------------------------------------

  function Zeros(n: int): (r: seq<byte>)
    requires n >= 0
    ensures |r| == n && forall i :: 0 <= i < n ==> r[i] == 0
  {
    seq(n, _ => 0)
  }

  predicate PositiveDims(request: Request) {
    request.width > 0 && request.height > 0 && request.channels > 0
  }

  function InputSize(request: Request): int {
    Size(request.width, request.height, request.channels)
  }

  function OutputSize(request: Request): int {
    Size(request.width, request.height, OutputChannels(request))
  }

  /** The number of bytes of the image data that are read, without a check: by the pipeline, by
      a detector that runs alone, or by nobody. A negative size is a huge one to memcpy. */
  function BytesRead(request: Request, created: seq<Filter>, detector: bool): int {
    if created != [] then if PositiveDims(request) then InputSize(request) else 0
    else if !detector || ModelInference !in request.filters || OutputSize(request) < 0 then 0
    else if InputSize(request) < 0 then OutputSize(request)
    else InputSize(request)
  }

  /** The request holds the image it declares, as far as that is read. */
  predicate Covers(request: Request, create: Factory, detector: bool) {
    |request.imageData| >= BytesRead(request, Created(request.filters, create, |request.filters|), detector)
  }

  function Frame(request: Request): Image
    requires 0 <= InputSize(request) <= |request.imageData|
  {
    Image(request.width, request.height, request.channels, request.imageData[..InputSize(request)])
  }

  /** The response code, as a function of the request. A detector that is to run on an image of
      negative size throws. */
  function ExpectedCode(request: Request, created: seq<Filter>, detector: bool): int
    requires |request.imageData| >= BytesRead(request, created, detector)
  {
    if created == [] && ModelInference !in request.filters then 5
    else if OutputSize(request) < 0 then 6
    else if created == [] then if detector && InputSize(request) < 0 then 6 else 0
    else if !PositiveDims(request) then 7
    else
      SizePositive(request.width, request.height, request.channels);
      if Composed(created, Frame(request), OutputChannels(request)).Some? then 0 else 7
  }

  /** No entry of the request gets a filter into the pipeline. */
  ghost predicate NothingMade(request: Request, create: Factory) {
    forall i :: 0 <= i < |request.filters| ==>
      && !(request.filters[i] == Grayscale && create(i, GRAYSCALE).Some?)
      && !(request.filters[i] == Blur && create(i, BLUR).Some?)
  }

  lemma NothingMadeIff(request: Request, create: Factory)
    ensures Created(request.filters, create, |request.filters|) == [] <==> NothingMade(request, create)
  {
    var created := Created(request.filters, create, |request.filters|);
    var positions := CreatedInOrder(request.filters, create, |request.filters|);
    if positions != [] {
      assert positions[0] in positions;
    }
    if positions == [] {
      forall i | 0 <= i < |request.filters|
        ensures && !(request.filters[i] == Grayscale && create(i, GRAYSCALE).Some?)
                && !(request.filters[i] == Blur && create(i, BLUR).Some?)
      {
        assert i !in positions;
      }
    }
  }

  /** Which requests get which code, and which are read past their end. */
  lemma CodesExactly(request: Request, create: Factory, detector: bool)
    ensures var none, inference := NothingMade(request, create), ModelInference in request.filters;
            var (w, h, c) := (request.width, request.height, request.channels);
            var size := w * h * (if Grayscale in request.filters then 1 else c);
            var positive := w > 0 && h > 0 && c > 0;
            && (none <==> Created(request.filters, create, |request.filters|) == [])
            && (Covers(request, create, detector) <==>
                  && (!none && positive ==> |request.imageData| >= w * h * c)
                  && (none && inference && detector && size >= 0 ==>
                        |request.imageData| >= if w * h * c < 0 then size else w * h * c))
            && (Covers(request, create, detector) ==>
                  var created := Created(request.filters, create, |request.filters|);
                  var code := ExpectedCode(request, created, detector);
                  && (code == 5 <==> none && !inference)
                  && (code == 6 <==> code != 5 && (size < 0 || (none && detector && w * h * c < 0)))
                  && (code == 7 <==>
                        && !none && size >= 0
                        && (positive ==>
                              var frame := request.imageData[..w * h * c];
                              Composed(created, Image(w, h, c, frame), OutputChannels(request)).None?))
                  && code in {0, 5, 6, 7})
  {
    hide Composed, Created;
    NothingMadeIff(request, create);
    if PositiveDims(request) {
      SizePositive(request.width, request.height, request.channels);
      SizePositive(request.width, request.height, OutputChannels(request));
    }
  }

  /** A response whose data is one frame of the size it declares. */
  predicate ImageSized(r: Response) {
    |r.imageData| == Size(r.width, r.height, r.channels)
  }

  /** ApplyInference leaves the image alone after a pipeline run; otherwise a detector copies
      the input over, and without one the zero-filled output stays. It throws when it cannot
      make room for a copy of the image. */
  method ApplyInference(request: Request, detector: bool, pipelineRan: bool, output: array<byte>)
    returns (throws: bool)
    requires detector && !pipelineRan ==>
               |request.imageData| >= if InputSize(request) < 0 then output.Length else InputSize(request)
    modifies output
    ensures throws == (detector && request.width * request.height * request.channels < 0)
    ensures pipelineRan || !detector ==> output[..] == old(output[..])
    ensures !pipelineRan && detector && !throws ==>
              var n := Min(request.width * request.height * request.channels, output.Length);
              output[..] == request.imageData[..n] + old(output[n..])
  {
    if !detector {
      return false;
    }
    if !pipelineRan {
      var n := if InputSize(request) < 0 then output.Length else Min(InputSize(request), output.Length);
      for k := 0 to n
        invariant output[..k] == request.imageData[..k]
        invariant output[k..] == old(output[k..])
      {
        output[k] := request.imageData[k];
      }
      assert output[..] == output[..n] + output[n..];
    }
    return InputSize(request) < 0;
  }

  /** Builds the pipeline, filter by filter; `positions` are the entries that got one. */
  method BuildPipeline(request: Request, create: Factory)
    returns (pipeline: Pipeline, inference: bool, ghost positions: seq<nat>)
    requires Honest(create)
    ensures fresh(pipeline) && fresh(pipeline.pool) && pipeline.Valid()
    ensures pipeline.pool.Buffers() == {} == pipeline.pool.Free()
    ensures pipeline.filters == Created(request.filters, create, |request.filters|)
    ensures inference <==> ModelInference in request.filters
    ensures MadeAt(pipeline.filters, request.filters, create, |request.filters|, positions)
  {
    var pool := new BufferPool.Pool();
    pipeline := new Pipeline(pool);
    inference := false;
    for i := 0 to |request.filters|
      invariant fresh(pipeline) && fresh(pipeline.pool) && pipeline.Valid() && pipeline.pool == pool
      invariant pool.available == [] && pool.inUse == []
      invariant pipeline.filters == Created(request.filters, create, i)
      invariant inference <==> ModelInference in request.filters[..i]
    {
      match request.filters[i] {
        case Grayscale =>
          var f := create(i, GRAYSCALE);
          if f.Some? {
            pipeline.AddFilter(f.value);
          }
        case Blur =>
          var f := create(i, BLUR);
          if f.Some? {
            pipeline.AddFilter(f.value);
          }
        case ModelInference =>
          inference := true;
        case _ =>
      }
      assert request.filters[..i + 1] == request.filters[..i] + [request.filters[i]];
    }
    assert request.filters[..|request.filters|] == request.filters;
    positions := CreatedInOrder(request.filters, create, |request.filters|);
  }

  method CountOutputChannels(request: Request) returns (channels: int)
    ensures channels == OutputChannels(request)
  {
    channels := request.channels;
    for i := 0 to |request.filters|
      invariant Grayscale !in request.filters[..i]
      invariant channels == request.channels
    {
      if request.filters[i] == Grayscale {
        return 1;
      }
      assert request.filters[..i + 1] == request.filters[..i] + [request.filters[i]];
    }
    assert request.filters[..|request.filters|] == request.filters;
  }

  lemma SizesAgreeIff(width: int, height: int, a: int, b: int)
    ensures Size(width, height, a) == Size(width, height, b) <==> a == b || width * height == 0
  {
    var n := width * height;
    assert n * a - n * b == n * (a - b);
    if n != 0 && a != b {
      NoZeroProduct(n, a - b);
    }
  }

  lemma NoZeroProduct(n: int, d: int)
    requires n != 0 && d != 0
    ensures n * d != 0
  {
  }

  /** A copied prefix is the whole input exactly when the sizes agree. */
  lemma CopyIsInputIff(input: seq<byte>, size: nat)
    ensures var n := Min(|input|, size);
            input[..n] + Zeros(size - n) == input <==> size == |input|
  {
    var n := Min(|input|, size);
    assert |input[..n] + Zeros(size - n)| == size;
  }

  /** The pipeline on the image data of the request. */
  method RunPipeline(pipeline: Pipeline, request: Request, output: View) returns (success: bool)
    requires pipeline.Valid() && pipeline.filters != []
    requires pipeline.pool.Buffers() == {} == pipeline.pool.Free()
    requires output.data != null && output.data.Length == output.Extent()
    requires output.width == request.width && output.height == request.height
    requires output.channels == OutputChannels(request)
    requires PositiveDims(request) ==> InputSize(request) <= |request.imageData|
    modifies pipeline.pool, output.data
    ensures success ==> PositiveDims(request) && 0 <= InputSize(request)
    ensures PositiveDims(request) && 0 <= InputSize(request) ==>
              var composed := Composed(old(pipeline.filters), Frame(request), output.channels);
              && (success <==> composed.Some?)
              && (success ==> composed == Some(Image(output.width, output.height, output.channels, output.data[..])))
  {
    var memory := new byte[|request.imageData|](i requires 0 <= i < |request.imageData| => request.imageData[i]);
    assert memory[..] == request.imageData;
    var input := View(memory, request.width, request.height, request.channels);
    if PositiveDims(request) {
      SizePositive(request.width, request.height, request.channels);
    }
    ghost var image := if PositiveDims(request) then Some(Seen(input)) else None;
    success := pipeline.Apply(input, output);
    if PositiveDims(request) {
      assert image == Some(Frame(request));
      assert output.data[..] == Seen(output).data;
    }
  }

  /** Every response says what its code promises: the data of a successful one is exactly one
      frame of the declared size, and it is the composition of the created filters, or, when only
      inference ran, as much of the input as fits. That is the input itself if and only if the
      response has the request's channels (or no pixels); a grayscale request that no filter was
      created for makes the difference. All this if the image data is not read past its end. */
  ghost predicate Answers(request: Request, created: seq<Filter>, detector: bool, ok: bool, response: Response) {
    var (w, h, c) := (request.width, request.height, request.channels);
    && |request.imageData| >= BytesRead(request, created, detector)
    && response.code == ExpectedCode(request, created, detector) && (ok <==> response.code == 0)
    && (ok ==>
          && response.width == w && response.height == h
          && response.channels == (if Grayscale in request.filters then 1 else c)
          && |response.imageData| == w * h * response.channels)
    && (ok && created != [] ==>
          && w > 0 && h > 0 && c > 0 && 0 <= w * h * c <= |request.imageData|
          && Composed(created, Image(w, h, c, request.imageData[..w * h * c]), response.channels) ==
             Some(Image(w, h, response.channels, response.imageData)))
    && (ok && created == [] && !detector ==> forall i :: 0 <= i < |response.imageData| ==> response.imageData[i] == 0)
    && (ok && created == [] && detector ==>
          && 0 <= w * h * c <= |request.imageData|
          && var n := Min(w * h * c, |response.imageData|);
          && response.imageData == request.imageData[..n] + Zeros(|response.imageData| - n)
          && (response.imageData == request.imageData[..w * h * c] <==> response.channels == c || w * h == 0))
  }

  /** What ApplyFilters does with the pipeline it has built. */
  method ProduceImage(request: Request, pipeline: Pipeline, inference: bool, detector: bool)
    returns (ok: bool, response: Response, overread: bool)
    requires pipeline.Valid() && pipeline.pool.Buffers() == {} == pipeline.pool.Free()
    requires pipeline.filters != [] || inference
    requires inference <==> ModelInference in request.filters
    modifies pipeline.pool
    ensures overread <==> |request.imageData| < BytesRead(request, old(pipeline.filters), detector)
    ensures !overread ==> Answers(request, old(pipeline.filters), detector, ok, response)
  {
    hide Composed;
    var channels := CountOutputChannels(request);
    var size := Size(request.width, request.height, channels);
    if size < 0 {
      return false, Response(6, [], 0, 0, 0), false;
    }
    if |request.imageData| < BytesRead(request, pipeline.filters, detector) {
      return false, Response(0, [], 0, 0, 0), true;
    }
    ghost var created := pipeline.filters;
    var outputData := new byte[size](_ => 0);
    assert outputData[..] == Zeros(size);
    var pipelineRan := false;
    if |pipeline.filters| > 0 {
      var success := RunPipeline(pipeline, request, View(outputData, request.width, request.height, channels));
      if !success {
        return false, Response(7, [], 0, 0, 0), false;
      }
      pipelineRan := true;
    }
    if inference {
      var throws := ApplyInference(request, detector, pipelineRan, outputData);
      if throws {
        return false, Response(6, [], 0, 0, 0), false;
      }
    }
    ok, response := true, Response(0, outputData[..], request.width, request.height, channels);
    overread := false;
    if created == [] && detector {
      SizesAgreeIff(request.width, request.height, channels, request.channels);
      CopyIsInputIff(request.imageData[..InputSize(request)], size);
    }
  }

  method ApplyFilters(request: Request, create: Factory, detector: bool)
    returns (ok: bool, response: Response, overread: bool)
    requires Honest(create)
    ensures overread <==> !Covers(request, create, detector)
    ensures !overread ==>
              Answers(request, Created(request.filters, create, |request.filters|), detector, ok, response)
  {
    hide MadeAt, Composed;
    var pipeline, inference, _ := BuildPipeline(request, create);
    if |pipeline.filters| == 0 && !inference {
      return false, Response(5, [], 0, 0, 0), false;
    }
    ok, response, overread := ProduceImage(request, pipeline, inference, detector);
  }
}
