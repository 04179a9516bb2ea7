/** CopyResponseToRgbBuffer (live_video_processor.cpp): an engine response becomes an RGB
    frame. */
module LiveVideo {
  import opened Common
  import opened FilterPipeline
  import opened ProcessorEngine

  datatype CopyError = DimensionsChanged | EmptyFrame | UnsupportedChannels

  /** Colour `k` of pixel `i` in a frame of 1, 3 or 4 channels. */
  function Colour(payload: seq<byte>, channels: int, i: nat, k: nat): byte
    requires channels == 1 || channels == 3 || channels == 4
    requires k < 3 && |payload| >= channels * (i + 1)
  {
    if channels == 1 then payload[i] else payload[channels * i + k]
  }

  /** The first `n` pixels of `rgb` show the first `n` pixels of the payload. */
  ghost predicate Shows(rgb: seq<byte>, payload: seq<byte>, channels: int, n: nat)
    requires channels == 1 || channels == 3 || channels == 4
    requires |payload| >= channels * n && |rgb| >= 3 * n
  {
    forall i, k :: 0 <= i < n && 0 <= k < 3 ==> rgb[3 * i + k] == Colour(payload, channels, i, k)
  }

  /** That is: gray values three times, RGB as it is, RGBA without its fourth bytes. */
  lemma ShownPixel(rgb: seq<byte>, payload: seq<byte>, channels: int, n: nat, i: nat)
    requires channels == 1 || channels == 3 || channels == 4
    requires |payload| >= channels * n && |rgb| >= 3 * n && Shows(rgb, payload, channels, n) && i < n
    ensures channels == 1 ==> rgb[3 * i..3 * i + 3] == [payload[i], payload[i], payload[i]]
    ensures channels == 3 ==> rgb[3 * i..3 * i + 3] == payload[3 * i..3 * i + 3]
    ensures channels == 4 ==> rgb[3 * i..3 * i + 3] == payload[4 * i..4 * i + 3]
  {
    var pixel := rgb[3 * i..3 * i + 3];
    assert pixel[0] == rgb[3 * i + 0] == Colour(payload, channels, i, 0);
    assert pixel[1] == rgb[3 * i + 1] == Colour(payload, channels, i, 1);
    assert pixel[2] == rgb[3 * i + 2] == Colour(payload, channels, i, 2);
  }

  lemma ShowsBlack(rgb: seq<byte>, payload: seq<byte>, channels: int, n: nat)
    requires (channels == 1 || channels == 3) && |payload| >= channels * n && |rgb| == 3 * n
    requires Shows(rgb, payload, channels, n) && forall i :: 0 <= i < |payload| ==> payload[i] == 0
    ensures forall j :: 0 <= j < |rgb| ==> rgb[j] == 0
  {
    forall j | 0 <= j < |rgb|
      ensures rgb[j] == 0
    {
      assert rgb[3 * (j / 3) + j % 3] == Colour(payload, channels, j / 3, j % 3);
    }
  }

  lemma MultiplySign(n: int, c: int)
    requires n * c > 0 && c > 0
    ensures n > 0
  {
  }

  lemma PixelCount(r: Response)
    requires ImageSized(r) && r.channels > 0 && |r.imageData| > 0
    ensures r.width * r.height >= 1 && |r.imageData| == r.channels * (r.width * r.height)
  {
    var n := r.width * r.height;
    assert |r.imageData| == n * r.channels;
    MultiplySign(n, r.channels);
  }

  method SpreadGray(payload: seq<byte>, n: nat, buffer: array<byte>)
    requires |payload| >= n && buffer.Length == 3 * n
    modifies buffer
    ensures Shows(buffer[..], payload, 1, n)
  {
    for index := 0 to n
      invariant forall i :: 0 <= i < index ==>
                  buffer[3 * i] == payload[i] && buffer[3 * i + 1] == payload[i] && buffer[3 * i + 2] == payload[i]
    {
      var value := payload[index];
      buffer[index * 3] := value;
      buffer[index * 3 + 1] := value;
      buffer[index * 3 + 2] := value;
    }
  }

  method CopyColours(payload: seq<byte>, n: nat, buffer: array<byte>)
    requires |payload| >= 3 * n && buffer.Length == 3 * n
    modifies buffer
    ensures Shows(buffer[..], payload, 3, n)
  {
    for index := 0 to 3 * n
      invariant forall j :: 0 <= j < index ==> buffer[j] == payload[j]
    {
      buffer[index] := payload[index];
    }
  }

  method DropAlpha(payload: seq<byte>, n: nat, buffer: array<byte>)
    requires |payload| >= 4 * n && buffer.Length == 3 * n
    modifies buffer
    ensures Shows(buffer[..], payload, 4, n)
  {
    for index := 0 to n
      invariant forall i :: 0 <= i < index ==>
                  && buffer[3 * i] == payload[4 * i] && buffer[3 * i + 1] == payload[4 * i + 1]
                  && buffer[3 * i + 2] == payload[4 * i + 2]
    {
      var src, dst := index * 4, index * 3;
      buffer[dst] := payload[src];
      buffer[dst + 1] := payload[src + 1];
      buffer[dst + 2] := payload[src + 2];
    }
  }

  /** For a response the engine sized, every read is in bounds, and what comes out is one RGB
      frame showing the response, or the error of the first check that fails. */
  method CopyResponseToRgbBuffer(response: Response, width: int, height: int, previous: seq<byte>)
    returns (outcome: Result<(), CopyError>, rgb: seq<byte>)
    requires ImageSized(response)
    ensures outcome == Failure(DimensionsChanged) <==> response.width != width || response.height != height
    ensures outcome == Failure(EmptyFrame) <==>
              response.width == width && response.height == height &&
              (response.channels <= 0 || response.imageData == [])
    ensures outcome.Success? <==>
              response.width == width && response.height == height &&
              response.imageData != [] && response.channels in {1, 3, 4}
    ensures outcome.Success? ==>
              && |rgb| == 3 * (width * height)
              && |response.imageData| == response.channels * (width * height)
              && Shows(rgb, response.imageData, response.channels, width * height)
    ensures outcome == Failure(UnsupportedChannels) ==>
              |rgb| == 3 * (width * height) && forall i :: 0 <= i < |rgb| ==> rgb[i] == 0
    ensures outcome == Failure(DimensionsChanged) || outcome == Failure(EmptyFrame) ==> rgb == previous
  {
    if response.width != width || response.height != height {
      return Failure(DimensionsChanged), previous;
    }
    var channels, payload := response.channels, response.imageData;
    if channels <= 0 || payload == [] {
      return Failure(EmptyFrame), previous;
    }
    PixelCount(response);
    var n := width * height;
    var buffer := new byte[3 * n](_ => 0);
    if channels == 1 {
      SpreadGray(payload, n, buffer);
      return Success(()), buffer[..];
    }
    if channels == 3 {
      CopyColours(payload, n, buffer);
      return Success(()), buffer[..];
    }
    if channels == 4 {
      DropAlpha(payload, n, buffer);
      return Success(()), buffer[..];
    }
    return Failure(UnsupportedChannels), buffer[..];
  }

  datatype FrameError = EngineFailed(code: int)

  function LiveRequest(filters: seq<RequestedFilter>, decoded: seq<byte>, width: int, height: int): Request {
    Request(filters, decoded, width, height, 3)
  }

  method HasActiveFilters(filters: seq<RequestedFilter>) returns (active: bool)
    ensures active <==> exists f :: f in filters && f != None_
  {
    for i := 0 to |filters|
      invariant forall j :: 0 <= j < i ==> filters[j] == None_
    {
      if filters[i] != None_ {
        assert filters[i] in filters;
        return true;
      }
    }
    return false;
  }

  /** One live frame, as the decoder gave it. Without active filters it is passed on as it is;
      otherwise it is passed on exactly if the engine processed it, and then it shows the
      composition of the created filters. After inference alone it is black without a detector,
      and with one it is the frame itself exactly if no grayscale filter is requested or all
      bytes of the frame are equal: for a grayscale filter that is requested but not created the
      first third of the RGB bytes is shown as gray values. */
  method ProcessLiveFrame(filters: seq<RequestedFilter>, decoded: seq<byte>, width: int, height: int,
                          create: Factory, detector: bool)
    returns (outcome: Result<(), FrameError>, rgb: seq<byte>)
    requires Honest(create) && width > 0 && height > 0 && |decoded| == Size(width, height, 3)
    ensures (forall f :: f in filters ==> f == None_) ==> outcome == Success(()) && rgb == decoded
    ensures var request := LiveRequest(filters, decoded, width, height);
            var created := Created(filters, create, |filters|);
            var channels, n := OutputChannels(request), width * height;
            (exists f :: f in filters && f != None_) ==>
              && |request.imageData| >= BytesRead(request, created, detector)
              && var code := ExpectedCode(request, created, detector);
              && outcome == (if code == 0 then Success(()) else Failure(EngineFailed(code)))
              && (code == 0 ==>
                    && n >= 0 && channels in {1, 3} && |rgb| == 3 * n
                    && (created != [] ==>
                          var shown := Composed(created, Image(width, height, 3, decoded), channels);
                          && shown.Some? && |shown.value.data| == channels * n
                          && Shows(rgb, shown.value.data, channels, n))
                    && (created == [] && detector ==>
                          && channels * n <= |decoded| && Shows(rgb, decoded, channels, n)
                          && (rgb == decoded <==> Grayscale !in filters || OneValue(decoded)))
                    && (created == [] && !detector ==> forall j :: 0 <= j < |rgb| ==> rgb[j] == 0))
  {
    var active := HasActiveFilters(filters);
    if !active {
      return Success(()), decoded;
    }
    var request := LiveRequest(filters, decoded, width, height);
    ghost var created := Created(filters, create, |filters|);
    FrameSizes(request);
    assert decoded[..width * height * 3] == decoded;
    var ok, response, overread := ApplyFilters(request, create, detector);
    if !ok {
      return Failure(EngineFailed(response.code)), decoded;
    }
    var copied;
    copied, rgb := CopyResponseToRgbBuffer(response, width, height, decoded);
    assert copied.Success?; // so ProcessAccessUnit never takes its exit for a failed copy
    if created == [] && detector {
      ghost var shown := |response.imageData|;
      assert response.imageData == decoded[..shown];
      ShowsPrefix(rgb, decoded, shown, response.channels, width * height);
      ShowsItselfIff(rgb, decoded, response.channels, width * height);
    } else if created == [] {
      ShowsBlack(rgb, response.imageData, response.channels, width * height);
    }
    return Success(()), rgb;
  }

  predicate OneValue(bytes: seq<byte>) {
    forall i, j :: 0 <= i < j < |bytes| ==> bytes[i] == bytes[j]
  }

  /** In a frame whose every byte equals the one at a third of its position all bytes are equal. */
  lemma {:induction false} ThirdsAreOne(bytes: seq<byte>, j: nat)
    requires j < |bytes| && forall i :: 0 <= i < |bytes| ==> bytes[i] == bytes[i / 3]
    ensures bytes[j] == bytes[0]
  {
    if j > 0 {
      ThirdsAreOne(bytes, j / 3);
    }
  }

  /** RGB bytes read as RGB show themselves; read as gray values only if they are all equal. */
  lemma ShowsItselfIff(rgb: seq<byte>, frame: seq<byte>, channels: int, n: nat)
    requires |rgb| == |frame| == 3 * n && (channels == 1 || channels == 3) && Shows(rgb, frame, channels, n)
    ensures rgb == frame <==> channels == 3 || OneValue(frame)
  {
    forall i | 0 <= i < 3 * n
      ensures rgb[i] == if channels == 3 then frame[i] else frame[i / 3]
    {
      assert rgb[3 * (i / 3) + i % 3] == Colour(frame, channels, i / 3, i % 3);
    }
    if rgb == frame && channels == 1 {
      forall j | 0 <= j < |frame|
        ensures frame[j] == frame[0]
      {
        ThirdsAreOne(frame, j);
      }
    }
  }

  function NoFilters(i: nat, kind: FilterType): Option<Filter> {
    None
  }

  /** Grayscale and inference requested of an accelerator that creates no filters: two pixels
      come out gray, the red and the green of the first one being their values. */
  method DroppedGrayscale() returns (rgb: seq<byte>)
    ensures rgb == [1, 1, 1, 2, 2, 2]
  {
    var frame: seq<byte> := [1, 2, 3, 4, 5, 6];
    var filters := [Grayscale, ModelInference];
    assert Created(filters, NoFilters, 2) == [] by {
      assert Created(filters, NoFilters, 0) == [] && Created(filters, NoFilters, 1) == [];
    }
    assert filters[0] == Grayscale && filters[1] == ModelInference;
    var outcome;
    outcome, rgb := ProcessLiveFrame(filters, frame, 2, 1, NoFilters, true);
    assert outcome == Success(());
    ShownPixel(rgb, frame, 1, 2, 0);
    ShownPixel(rgb, frame, 1, 2, 1);
    assert rgb == rgb[0..3] + rgb[3..6];
  }

  lemma ShowsPrefix(rgb: seq<byte>, payload: seq<byte>, m: nat, channels: int, n: nat)
    requires (channels == 1 || channels == 3) && channels * n <= m <= |payload| && |rgb| >= 3 * n
    requires Shows(rgb, payload[..m], channels, n)
    ensures Shows(rgb, payload, channels, n)
  {
    forall i, k | 0 <= i < n && 0 <= k < 3
      ensures rgb[3 * i + k] == Colour(payload, channels, i, k)
    {
      assert rgb[3 * i + k] == Colour(payload[..m], channels, i, k);
    }
  }

  lemma FrameSizes(request: Request)
    requires request.width > 0 && request.height > 0 && request.channels == 3
    ensures var n := request.width * request.height;
            n > 0 && InputSize(request) == 3 * n && OutputSize(request) == OutputChannels(request) * n
  {
  }
}
