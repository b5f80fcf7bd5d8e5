/** The bin-code upload of src/components/QRScanner.tsx: `handleFileUpload`
    checks the file type, decodes the picture with up to three calls of the
    QR decoder (the last on a binarised copy of the pixels) and hands the
    decoded text to `onScan`.

    The decoder (jsQR) is a parameter. The asynchronous loading of the file
    and the picture is split into two events: choosing the file, and the
    end of loading with its outcome. */
module QrScanner {
  import opened Wrappers
  import opened Strings

  // ---------------------------------------------------------------------
  // The type guard, line 27

  /** `file.type.startsWith('image/')`. */
  predicate IsImageType(mime: string) {
    StartsWith(mime, "image/")
  }

  /** The guard is a case-sensitive prefix test on the whole `image/`. */
  lemma ImageTypeExamples()
    ensures IsImageType("image/png") && IsImageType("image/")
    ensures !IsImageType("image") && !IsImageType("IMAGE/PNG") && !IsImageType("text/image/")
  {
    assert "image/png"[..6] == "image/";
    assert "text/image/"[0] != "image/"[0];
    assert "IMAGE/PNG"[0] != "image/"[0];
  }

  /** Every type with a subtype after `image/` passes and nothing else. */
  lemma ImageTypeIff(mime: string)
    ensures IsImageType(mime) <==> exists sub :: mime == "image/" + sub
  {
    if IsImageType(mime) {
      assert mime == "image/" + mime[6..];
    }
    forall sub | mime == "image/" + sub ensures IsImageType(mime) {
      assert mime[..6] == "image/";
    }
  }

  // ---------------------------------------------------------------------
  // Binarisation, lines 100-106

  /** One entry of a `Uint8ClampedArray`. */
  type Byte = x: int | 0 <= x < 256

  /** The value the loop writes into the colour channels of the pixel at
      `base`: `(r + g + b) / 3 > 128`. A channel past the end of the buffer
      reads as `undefined`, the average is `NaN` and the test fails. */
  function PixelValue(data: seq<Byte>, base: nat): Byte {
    if base + 2 < |data| && ChannelSum(data, base) > 384 then 255 else 0
  }

  /** `r + g + b` of the pixel at `base`. */
  function ChannelSum(data: seq<Byte>, base: nat): int
    requires base + 2 < |data|
  {
    data[base] as int + data[base + 1] as int + data[base + 2] as int
  }

  /** The byte at index `k` after the loop: the alpha channel is never
      written; every other channel takes its pixel's value. */
  function BinarizedAt(data: seq<Byte>, k: nat): Byte
    requires k < |data|
  {
    if k % 4 == 3 then data[k] else PixelValue(data, k - k % 4)
  }

  function Binarized(data: seq<Byte>): (r: seq<Byte>)
    ensures |r| == |data|
    ensures forall k :: 0 <= k < |data| ==> r[k] == BinarizedAt(data, k)
  {
    seq(|data|, k requires 0 <= k < |data| => BinarizedAt(data, k))
  }

  /** Dividing the channel sum by 3 and comparing with 128 is comparing the
      sum with 384. */
  lemma AverageThreshold(r: Byte, g: Byte, b: Byte)
    ensures (r as int + g as int + b as int) as real / 3.0 > 128.0 <==> r as int + g as int + b as int > 384
  {
  }

  /** The loop at lines 100-106, in place. */
  method Binarize(data: array<Byte>)
    modifies data
    ensures data[..] == Binarized(old(data[..]))
  {
    ghost var input := data[..];
    var i := 0;
    while i < data.Length
      invariant 0 <= i < data.Length + 4 && i % 4 == 0
      invariant forall k :: 0 <= k < i && k < data.Length ==> data[k] == BinarizedAt(input, k)
      invariant forall k :: i <= k < data.Length ==> data[k] == input[k]
    {
      var above := i + 2 < data.Length && data[i] as int + data[i + 1] as int + data[i + 2] as int > 384;
      var value: Byte := if above then 255 else 0;
      assert value == PixelValue(input, i);
      data[i] := value;
      if i + 1 < data.Length {
        data[i + 1] := value;
      }
      if i + 2 < data.Length {
        data[i + 2] := value;
      }
      forall k | i <= k < i + 4 && k < data.Length ensures data[k] == BinarizedAt(input, k) {
        assert k % 4 == k - i;
      }
      i := i + 4;
    }
    assert data[..] == Binarized(input);
  }

  /** In every whole pixel the three colour channels end equal, black or
      white; alpha bytes and the length never change. */
  lemma BinarizedPixels(data: seq<Byte>, base: nat)
    requires base % 4 == 0 && base + 3 < |data|
    ensures var r := Binarized(data);
      r[base] == r[base + 1] == r[base + 2] && (r[base] == 0 || r[base] == 255) &&
      r[base + 3] == data[base + 3] &&
      (r[base] == 255 <==> ChannelSum(data, base) > 384)
  {
    assert (base + 1) % 4 == 1 && (base + 2) % 4 == 2 && (base + 3) % 4 == 3;
  }

  /** Binarising twice is binarising once: a black pixel sums to 0, a white
      one to 765. */
  lemma BinarizeIdempotent(data: seq<Byte>)
    ensures Binarized(Binarized(data)) == Binarized(data)
  {
    var once := Binarized(data);
    forall k | 0 <= k < |data| ensures Binarized(once)[k] == once[k] {
      if k % 4 != 3 {
        PixelValueStable(data, k - k % 4);
      }
    }
  }

  lemma PixelValueStable(data: seq<Byte>, base: nat)
    requires base % 4 == 0 && base < |data|
    ensures PixelValue(Binarized(data), base) == PixelValue(data, base)
  {
    if base + 2 < |data| {
      assert (base + 1) % 4 == 1 && (base + 2) % 4 == 2;
      assert (base + 1) - (base + 1) % 4 == base && (base + 2) - (base + 2) % 4 == base;
    }
  }

  // ---------------------------------------------------------------------
  // The decode cascade, lines 83-111

  /** `inversionAttempts`. */
  datatype Inversion = DontInvert | AttemptBoth

  /** What jsQR returns when it finds a code. */
  datatype QrCode = QrCode(data: string)

  /** `jsQR(data, width, height, { inversionAttempts })`; `None` is `null`. */
  type Decoder = (seq<Byte>, int, int, Inversion) -> Option<QrCode>

  /** One call of the decoder: its option and whether the pixels had been
      binarised. */
  datatype Attempt = Attempt(inversion: Inversion, binarized: bool)

  datatype CascadeRun = CascadeRun(code: Option<QrCode>, attempts: seq<Attempt>, pixels: seq<Byte>)

  /** The three calls, each made only if the ones before returned `null`. */
  function Cascade(decode: Decoder, pixels: seq<Byte>, width: int, height: int): CascadeRun {
    var first := decode(pixels, width, height, DontInvert);
    if first.Some? then CascadeRun(first, [Attempt(DontInvert, false)], pixels)
    else
      var second := decode(pixels, width, height, AttemptBoth);
      if second.Some? then
        CascadeRun(second, [Attempt(DontInvert, false), Attempt(AttemptBoth, false)], pixels)
      else
        var sharp := Binarized(pixels);
        CascadeRun(decode(sharp, width, height, AttemptBoth),
                   [Attempt(DontInvert, false), Attempt(AttemptBoth, false), Attempt(AttemptBoth, true)],
                   sharp)
  }

  method DecodeImage(decode: Decoder, data: array<Byte>, width: int, height: int)
    returns (code: Option<QrCode>, attempts: seq<Attempt>)
    modifies data
    ensures code == Cascade(decode, old(data[..]), width, height).code
    ensures attempts == Cascade(decode, old(data[..]), width, height).attempts
    ensures data[..] == Cascade(decode, old(data[..]), width, height).pixels
  {
    code := decode(data[..], width, height, DontInvert);
    attempts := [Attempt(DontInvert, false)];
    if code.None? {
      code := decode(data[..], width, height, AttemptBoth);
      attempts := attempts + [Attempt(AttemptBoth, false)];
    }
    if code.None? {
      Binarize(data);
      code := decode(data[..], width, height, AttemptBoth);
      attempts := attempts + [Attempt(AttemptBoth, true)];
    }
  }

  /** At most three calls, in a fixed order: the plain call first, then an
      inverting call on the same pixels only if the plain one failed, then
      an inverting call on the binarised pixels only if both failed. The
      answer is that of the last call, and the pixels are binarised exactly
      when the third call was made. */
  lemma CascadeOrder(decode: Decoder, pixels: seq<Byte>, width: int, height: int)
    ensures var run := Cascade(decode, pixels, width, height);
      1 <= |run.attempts| <= 3 && run.attempts[0] == Attempt(DontInvert, false) &&
      (|run.attempts| >= 2 <==> decode(pixels, width, height, DontInvert).None?) &&
      (|run.attempts| >= 2 ==> run.attempts[1] == Attempt(AttemptBoth, false)) &&
      (|run.attempts| == 3 <==>
        decode(pixels, width, height, DontInvert).None? && decode(pixels, width, height, AttemptBoth).None?) &&
      (|run.attempts| == 3 ==> run.attempts[2] == Attempt(AttemptBoth, true))
    ensures var run := Cascade(decode, pixels, width, height);
      run.pixels == (if |run.attempts| == 3 then Binarized(pixels) else pixels) &&
      run.code == decode(run.pixels, width, height, run.attempts[|run.attempts| - 1].inversion) &&
      (|run.attempts| < 3 ==> run.code.Some?)
  {
  }

  /** A code is found exactly when one of the three calls finds one. */
  lemma CascadeFinds(decode: Decoder, pixels: seq<Byte>, width: int, height: int)
    ensures Cascade(decode, pixels, width, height).code.Some? <==>
      decode(pixels, width, height, DontInvert).Some? ||
      decode(pixels, width, height, AttemptBoth).Some? ||
      decode(Binarized(pixels), width, height, AttemptBoth).Some?
  {
  }

  // ---------------------------------------------------------------------
  // The upload lifecycle, lines 17-139

  /** `scanError`, by the path that set it. */
  datatype ScanError =
    | NotAnImage       // line 28
    | ReadFailed       // line 41
    | NoImageData      // line 47
    | UndecodableImage // line 53
    | NoCanvas         // line 65
    | NoQrCode         // line 118
    | ProcessingFailed // line 125

  /** How the asynchronous loading of a chosen image ended. */
  datatype Loading =
    | ReaderError      // `reader.onerror`
    | EmptyResult      // `reader.onload` without a result
    | ImageError       // `img.onerror`
    | CanvasMissing    // no 2D context
    | Loaded           // the pixels are ready for the decoder
    | Threw            // `img.onload` threw before `onScan`: `getImageData`
                       // of a zero-sized image, or the decoder

  datatype Upload = Upload(scanError: Option<ScanError>, isProcessing: bool, delivered: seq<string>)

  /** The state after the user picks `file` (`None` when the dialog was
      cancelled) of type `mime`. The file input and its button exist only
      while `isActive`, and the button is disabled while processing. */
  function Picked(u: Upload, isActive: bool, file: Option<string>): Upload {
    if !isActive || u.isProcessing || file.None? then u
    else if !IsImageType(file.value) then u.(scanError := Some(NotAnImage), isProcessing := false)
    else u.(scanError := None, isProcessing := true)
  }

  /** The state after loading ended; `code` is what the cascade found, read
      only when the pixels were loaded. */
  function Finished(u: Upload, loading: Loading, code: Option<QrCode>): Upload {
    if !u.isProcessing then u
    else
      match loading
      case ReaderError => u.(scanError := Some(ReadFailed), isProcessing := false)
      case EmptyResult => u.(scanError := Some(NoImageData), isProcessing := false)
      case ImageError => u.(scanError := Some(UndecodableImage), isProcessing := false)
      case CanvasMissing => u.(scanError := Some(NoCanvas), isProcessing := false)
      case Threw => u.(scanError := Some(ProcessingFailed), isProcessing := false)
      case Loaded =>
        if code.Some? && code.value.data != "" then
          u.(scanError := None, isProcessing := false, delivered := u.delivered + [code.value.data])
        else
          u.(scanError := Some(NoQrCode), isProcessing := false)
  }

  /** The component's state; `delivered` records the calls of `onScan`. */
  class Scanner {
    var scanError: Option<ScanError>
    var isProcessing: bool
    var delivered: seq<string>

    function State(): Upload
      reads this
    {
      Upload(scanError, isProcessing, delivered)
    }

    constructor()
      ensures State() == Upload(None, false, [])
    {
      scanError := None;
      isProcessing := false;
      delivered := [];
    }

    /** `handleFileUpload` up to `reader.readAsDataURL`. */
    method HandleFileUpload(isActive: bool, file: Option<string>)
      modifies this
      ensures State() == Picked(old(State()), isActive, file)
    {
      if !isActive || isProcessing {
        return;
      }
      if file.None? {
        return;
      }
      isProcessing := true;
      scanError := None;
      if !IsImageType(file.value) {
        scanError := Some(NotAnImage);
        isProcessing := false;
        return;
      }
    }

    /** The `onerror` and `onload` callbacks of the reader and the image. */
    method FinishLoading(loading: Loading, decode: Decoder, pixels: array<Byte>, width: int, height: int)
      modifies this, pixels
      ensures State() == Finished(old(State()), loading, Cascade(decode, old(pixels[..]), width, height).code)
      ensures pixels[..] == if old(isProcessing) && loading.Loaded?
        then Cascade(decode, old(pixels[..]), width, height).pixels else old(pixels[..])
    {
      if !isProcessing {
        return;
      }
      match loading
      case ReaderError =>
        scanError := Some(ReadFailed);
        isProcessing := false;
      case EmptyResult =>
        scanError := Some(NoImageData);
        isProcessing := false;
      case ImageError =>
        scanError := Some(UndecodableImage);
        isProcessing := false;
      case CanvasMissing =>
        scanError := Some(NoCanvas);
        isProcessing := false;
      case Threw =>
        scanError := Some(ProcessingFailed);
        isProcessing := false;
      case Loaded =>
        var code, _ := DecodeImage(decode, pixels, width, height);
        if code.Some? && code.value.data != "" {
          scanError := None;
          delivered := delivered + [code.value.data];
        } else {
          scanError := Some(NoQrCode);
        }
        isProcessing := false;
    }
  }

  // ---------------------------------------------------------------------
  // Properties of the lifecycle

  /** A file that is not an image is refused before any decoding: the error
      is set, processing is over and nothing is delivered. */
  lemma NonImageRefused(u: Upload, mime: string)
    requires !u.isProcessing && !IsImageType(mime)
    ensures Picked(u, true, Some(mime)) == u.(scanError := Some(NotAnImage), isProcessing := false)
    ensures forall loading, code :: Finished(Picked(u, true, Some(mime)), loading, code).delivered == u.delivered
  {
  }

  /** Choosing an image starts processing with the error cleared, and every
      way loading can end stops it again. */
  lemma ProcessingLifecycle(u: Upload, mime: string, loading: Loading, code: Option<QrCode>)
    requires !u.isProcessing && IsImageType(mime)
    ensures Picked(u, true, Some(mime)).isProcessing && Picked(u, true, Some(mime)).scanError == None
    ensures !Finished(Picked(u, true, Some(mime)), loading, code).isProcessing
  {
  }

  /** `onScan` is called once, with the decoded text, exactly when loading
      succeeded and the code has non-empty data; otherwise an error is set
      and nothing is delivered. */
  lemma DeliveredOnce(u: Upload, loading: Loading, code: Option<QrCode>)
    requires u.isProcessing
    ensures var u' := Finished(u, loading, code);
      (loading.Loaded? && code.Some? && code.value.data != "") ==>
        u'.delivered == u.delivered + [code.value.data] && u'.scanError == None
    ensures var u' := Finished(u, loading, code);
      !(loading.Loaded? && code.Some? && code.value.data != "") ==>
        u'.delivered == u.delivered && u'.scanError.Some?
  {
  }

  /** While the round is not active only the placeholder is shown, so no
      upload starts and nothing is ever delivered. */
  lemma InactiveNeverDelivers(u: Upload, file: Option<string>, loading: Loading, code: Option<QrCode>)
    requires !u.isProcessing
    ensures Picked(u, false, file) == u
    ensures Finished(Picked(u, false, file), loading, code) == u
  {
  }
}
