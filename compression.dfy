/**
 * The export-size search `compressCanvasToRange` (src/app.js:386-434): a fourteen-step
 * bisection over the JPEG quality for the best encoding that fits under `maxBytes`, a
 * low-quality fallback when none fits, and a max-quality retry when the result is too small.
 * The encoder is a parameter: it maps a quality to the size of the blob it produced, or to
 * `None` when it produced nothing, which makes the whole call fail.
 */
module Compression {
  import opened Utils

  /** The encoder: the size in bytes of the JPEG at a quality, `None` when the canvas gives no blob. */
  type Encoder = real -> Option<nat>

  /** The export warnings, by kind; the English text is not modelled. */
  datatype Warning =
    | NoWarning
    | BelowMinAtMaxQuality(minBytes: nat)  // "File is below <minBytes / 1024>KB even at max quality."
    | BelowMinimum                         // "File is below minimum size with current settings. ..."
    | AboveMaximum(maxKb: nat)             // "Could not reduce below <maxKbLabel>KB. ..."

  datatype Outcome =
    | Compressed(size: nat, warning: Warning)
    | Failure(message: string)

  const BisectionSteps: nat := 14
  const LowestQuality: real := 0.05
  const QualityStep: real := 0.01

  /** The bisection bounds, the best blob size found so far and the number of steps left. */
  datatype SearchState = SearchState(low: real, high: real, bestUnder: Option<nat>, left: nat)

  /** One bisection step after the encoder returned `size` at the midpoint `quality`. */
  function Narrow(s: SearchState, quality: real, size: nat, maxBytes: nat): SearchState
    requires s.left > 0
  {
    if size > maxBytes then SearchState(s.low, quality - QualityStep, s.bestUnder, s.left - 1)
    else SearchState(quality + QualityStep, s.high, Some(size), s.left - 1)
  }

  /** The outcome of a number of bisection steps and the qualities asked of the encoder. */
  datatype Run = Run(state: Option<SearchState>, queries: seq<real>)

  /** The remaining bisection steps from `s`; the state is `None` once the encoder fails. */
  function Bisect(encode: Encoder, s: SearchState, maxBytes: nat): Run
    decreases s.left
  {
    if s.left == 0 then Run(Some(s), [])
    else
      var quality := (s.low + s.high) / 2.0;
      match encode(quality)
      case None => Run(None, [quality])
      case Some(size) =>
        var rest := Bisect(encode, Narrow(s, quality, size, maxBytes), maxBytes);
        Run(rest.state, [quality] + rest.queries)
  }

  function InitialState(preferredQuality: real): SearchState
  {
    SearchState(LowestQuality, Clamp(preferredQuality, 0.4, 1.0), None, BisectionSteps)
  }

  /** The max-quality retry for a result of `size` bytes, and the warning policy. */
  function Finish(encode: Encoder, size: nat, minBytes: nat, maxBytes: nat, maxKb: nat): Outcome
  {
    if size < minBytes then
      match encode(1.0)
      case None => Failure("Compression failure while increasing quality.")
      case Some(top) =>
        if minBytes <= top <= maxBytes then Compressed(top, NoWarning)
        else if top < minBytes then Compressed(top, BelowMinAtMaxQuality(minBytes))
        else Compressed(size, BelowMinimum)  // the final size check keeps this warning
    else if size > maxBytes then Compressed(size, AboveMaximum(maxKb))
    else Compressed(size, NoWarning)
  }

  /** `compressCanvasToRange(canvas, mimeType, preferredQuality, minBytes, maxBytes, maxKbLabel)`. */
  function Compress(encode: Encoder, preferredQuality: real, minBytes: nat, maxBytes: nat, maxKb: nat): Outcome
  {
    var run := Bisect(encode, InitialState(preferredQuality), maxBytes);
    match run.state
    case None => Failure("Compression failure: unable to convert canvas to JPEG.")
    case Some(s) =>
      match s.bestUnder
      case Some(size) => Finish(encode, size, minBytes, maxBytes, maxKb)
      case None =>
        match encode(LowestQuality)
        case None => Failure("Compression failure: no JPEG output generated.")
        case Some(size) => Finish(encode, size, minBytes, maxBytes, maxKb)
  }

  /** Every quality the call asks the encoder for, in order, up to the first failure. */
  function Queries(encode: Encoder, preferredQuality: real, minBytes: nat, maxBytes: nat): seq<real>
  {
    var run := Bisect(encode, InitialState(preferredQuality), maxBytes);
    match run.state
    case None => run.queries
    case Some(s) =>
      var fallback := if s.bestUnder.Some? then [] else [LowestQuality];
      var output := if s.bestUnder.Some? then s.bestUnder else encode(LowestQuality);
      match output
      case None => run.queries + fallback
      case Some(size) => run.queries + fallback + (if size < minBytes then [1.0] else [])
  }

  // ---------------------------------------------------------------- the loop

  /** The bisection loop; it fails as soon as the encoder returns nothing. */
  method BisectLoop(encode: Encoder, preferredQuality: real, maxBytes: nat) returns (s: Option<SearchState>)
    ensures s == Bisect(encode, InitialState(preferredQuality), maxBytes).state
  {
    var low := LowestQuality;
    var high := Clamp(preferredQuality, 0.4, 1.0);
    var bestUnder: Option<nat> := None;
    var iteration := 0;
    while iteration < BisectionSteps
      invariant 0 <= iteration <= BisectionSteps
      invariant Bisect(encode, SearchState(low, high, bestUnder, BisectionSteps - iteration), maxBytes).state
                == Bisect(encode, InitialState(preferredQuality), maxBytes).state
      decreases BisectionSteps - iteration
    {
      var quality := (low + high) / 2.0;
      var blob := encode(quality);
      if blob.None? {
        return None;
      }
      if blob.value > maxBytes {
        high := quality - 0.01;
      } else {
        bestUnder := Some(blob.value);
        low := quality + 0.01;
      }
      iteration := iteration + 1;
    }
    s := Some(SearchState(low, high, bestUnder, 0));
  }

  /** `compressCanvasToRange`, step by step. */
  method CompressCanvasToRange(encode: Encoder, preferredQuality: real, minBytes: nat, maxBytes: nat, maxKb: nat)
    returns (r: Outcome)
    ensures r == Compress(encode, preferredQuality, minBytes, maxBytes, maxKb)
  {
    var searched := BisectLoop(encode, preferredQuality, maxBytes);
    if searched.None? {
      return Failure("Compression failure: unable to convert canvas to JPEG.");
    }
    var output := searched.value.bestUnder;
    if output.None? {
      output := encode(0.05);
      if output.None? {
        return Failure("Compression failure: no JPEG output generated.");
      }
    }
    var size := output.value;
    var warning := NoWarning;
    if size < minBytes {
      var maxQuality := encode(1.0);
      if maxQuality.None? {
        return Failure("Compression failure while increasing quality.");
      }
      if maxQuality.value >= minBytes && maxQuality.value <= maxBytes {
        size := maxQuality.value;
      } else if maxQuality.value < minBytes {
        size := maxQuality.value;
        warning := BelowMinAtMaxQuality(minBytes);
      } else {
        warning := BelowMinimum;
      }
    }
    if size > maxBytes {
      warning := if warning != NoWarning then warning else AboveMaximum(maxKb);
    }
    r := Compressed(size, warning);
  }

  // ---------------------------------------------------------------- properties

  /** The best blob the bisection keeps always fits under `maxBytes`. */
  lemma {:induction false} BestUnderFits(encode: Encoder, s: SearchState, maxBytes: nat)
    requires s.bestUnder.Some? ==> s.bestUnder.value <= maxBytes
    ensures var run := Bisect(encode, s, maxBytes);
            run.state.Some? && run.state.value.bestUnder.Some? ==> run.state.value.bestUnder.value <= maxBytes
    decreases s.left
  {
    if s.left > 0 {
      var quality := (s.low + s.high) / 2.0;
      if encode(quality).Some? {
        BestUnderFits(encode, Narrow(s, quality, encode(quality).value, maxBytes), maxBytes);
      }
    }
  }

  /**
   * Once some bisection step found a blob of at most `maxBytes`, the returned blob fits too,
   * provided the range is consistent.
   */
  lemma FitsWhenBisectionFits(encode: Encoder, preferredQuality: real, minBytes: nat, maxBytes: nat, maxKb: nat)
    requires minBytes <= maxBytes
    requires var run := Bisect(encode, InitialState(preferredQuality), maxBytes);
             run.state.Some? && run.state.value.bestUnder.Some?
    ensures var r := Compress(encode, preferredQuality, minBytes, maxBytes, maxKb);
            r.Compressed? ==> r.size <= maxBytes
  {
    BestUnderFits(encode, InitialState(preferredQuality), maxBytes);
  }

  /** The warning is empty exactly when the returned size lies within `[minBytes, maxBytes]`. */
  lemma WarningIffOutOfRange(encode: Encoder, preferredQuality: real, minBytes: nat, maxBytes: nat, maxKb: nat)
    requires minBytes <= maxBytes
    ensures var r := Compress(encode, preferredQuality, minBytes, maxBytes, maxKb);
            r.Compressed? ==> (r.warning == NoWarning <==> minBytes <= r.size <= maxBytes)
  {
  }

  lemma {:induction false} BisectQueriesFail(encode: Encoder, s: SearchState, maxBytes: nat)
    ensures var run := Bisect(encode, s, maxBytes);
            && (run.state.None? <==> exists k :: 0 <= k < |run.queries| && encode(run.queries[k]).None?)
            && (forall k :: 0 <= k < |run.queries| - 1 ==> encode(run.queries[k]).Some?)
            && (run.state.Some? ==> |run.queries| == s.left)
    decreases s.left
  {
    if s.left > 0 {
      var quality := (s.low + s.high) / 2.0;
      if encode(quality).Some? {
        var next := Narrow(s, quality, encode(quality).value, maxBytes);
        BisectQueriesFail(encode, next, maxBytes);
        var rest := Bisect(encode, next, maxBytes);
        var queries := [quality] + rest.queries;
        assert Bisect(encode, s, maxBytes) == Run(rest.state, queries);
        forall k | 1 <= k < |queries|
          ensures queries[k] == rest.queries[k - 1]
        {
        }
        if rest.state.None? {
          var k :| 0 <= k < |rest.queries| && encode(rest.queries[k]).None?;
          assert encode(queries[k + 1]).None?;
        } else {
          forall k | 0 <= k < |queries| ensures encode(queries[k]).Some? {
            if k > 0 {
              assert queries[k] == rest.queries[k - 1];
            }
          }
        }
      } else {
        assert encode(Bisect(encode, s, maxBytes).queries[0]).None?;
      }
    }
  }

  /**
   * The call fails exactly when the encoder returns nothing for one of the qualities it asks
   * for, and it asks for nothing after such a failure.
   */
  lemma FailsIffEncoderFails(encode: Encoder, preferredQuality: real, minBytes: nat, maxBytes: nat, maxKb: nat)
    ensures var qs := Queries(encode, preferredQuality, minBytes, maxBytes);
            && (Compress(encode, preferredQuality, minBytes, maxBytes, maxKb).Failure? <==>
                  exists k :: 0 <= k < |qs| && encode(qs[k]).None?)
            && (forall k :: 0 <= k < |qs| - 1 ==> encode(qs[k]).Some?)
  {
    var run := Bisect(encode, InitialState(preferredQuality), maxBytes);
    BisectQueriesFail(encode, InitialState(preferredQuality), maxBytes);
    var qs := Queries(encode, preferredQuality, minBytes, maxBytes);
    if run.state.Some? {
      var s := run.state.value;
      var n := |run.queries|;
      var output := if s.bestUnder.Some? then s.bestUnder else encode(LowestQuality);
      assert qs[..n] == run.queries;
      assert forall k :: 0 <= k < n ==> encode(qs[k]).Some? by {
        forall k | 0 <= k < n ensures encode(qs[k]).Some? {
          assert qs[k] == run.queries[k];
        }
      }
      if s.bestUnder.None? {
        assert qs[n] == LowestQuality;
        if output.None? {
          assert encode(qs[n]).None?;
        }
      }
      var extra := if s.bestUnder.Some? then 0 else 1;
      if output.Some? && output.value < minBytes {
        assert qs[n + extra] == 1.0 && |qs| == n + extra + 1;
      }
    }
  }

  /** An encoder that always produces a blob never makes the call fail. */
  lemma ReliableEncoderSucceeds(encode: Encoder, preferredQuality: real, minBytes: nat, maxBytes: nat, maxKb: nat)
    requires forall q :: encode(q).Some?
    ensures Compress(encode, preferredQuality, minBytes, maxBytes, maxKb).Compressed?
  {
    FailsIffEncoderFails(encode, preferredQuality, minBytes, maxBytes, maxKb);
    var qs := Queries(encode, preferredQuality, minBytes, maxBytes);
    forall k | 0 <= k < |qs|
      ensures encode(qs[k]).Some?
    {
      var q := qs[k];
      assert encode(q).Some?;
    }
  }

  /** The first bisection query is the midpoint of 0.05 and the clamped preferred quality. */
  lemma FirstQuery(encode: Encoder, preferredQuality: real, minBytes: nat, maxBytes: nat)
    ensures var qs := Queries(encode, preferredQuality, minBytes, maxBytes);
            |qs| > 0 && qs[0] == (LowestQuality + Clamp(preferredQuality, 0.4, 1.0)) / 2.0
  {
  }
}
