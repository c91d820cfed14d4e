/** The editable filter pipeline of the image-filter sandbox
    (6/scripts/script.js): filter steps built from the controls, the
    dispatch of one step to its filter, the left-to-right fold of the step
    list over a copy of the original image, and the session state the
    buttons edit (push, clear, move, remove). */
module FilterPipeline {
  import opened Wrappers
  import opened PixelBuffer
  import opened ToneFilters
  import opened Convolution

  type Kernel = seq<seq<real>>

  /** What a step's chip says; the text itself is rendering. */
  datatype Label =
    | ThresholdLabel(level: real)
    | PosterizeLabel(levels: int)
    | CustomLabel
    | KindLabel(kind: string)

  /** One pipeline step: the filter kind, its kernel (if any), the slider
      parameter and its label. */
  datatype Step = Step(kind: string, kernel: Option<Kernel>, param: real, caption: Label)

  /* ---------------- building steps ---------------- */

  /** The table of named kernels. */
  function NamedKernel(kind: string): Option<Kernel>
  {
    if kind == "edge" then Some([[-1.0, -1.0, -1.0], [-1.0, 8.0, -1.0], [-1.0, -1.0, -1.0]])
    else if kind == "gaussian" then Some([[0.0625, 0.125, 0.0625], [0.125, 0.25, 0.125], [0.0625, 0.125, 0.0625]])
    else if kind == "sharpen" then Some([[0.0, -1.0, 0.0], [-1.0, 5.0, -1.0], [0.0, -1.0, 0.0]])
    else if kind == "emboss" then Some([[-2.0, -1.0, 0.0], [-1.0, 1.0, 1.0], [0.0, 1.0, 2.0]])
    else if kind == "diagonalEmboss" then Some([[-1.0, -1.0, 0.0], [-1.0, 0.0, 1.0], [0.0, 1.0, 1.0]])
    else if kind == "boxBlur" then Some([[0.111, 0.111, 0.111], [0.111, 0.111, 0.111], [0.111, 0.111, 0.111]])
    else None
  }

  /** Every named kernel is a 3x3 square. */
  lemma NamedKernelsSquare(kind: string)
    ensures NamedKernel(kind).Some? ==> |NamedKernel(kind).value| == 3 && SquareKernel(NamedKernel(kind).value)
  {
  }

  /** `readCustomKernel`: the nine grid inputs, row by row. */
  function ReadCustomKernel(values: seq<real>): (k: Kernel)
    requires |values| == 9
    ensures |k| == 3 && SquareKernel(k)
    ensures forall i, j :: 0 <= i < 3 && 0 <= j < 3 ==> k[i][j] == values[3 * i + j]
  {
    [values[0..3], values[3..6], values[6..9]]
  }

  /** The number of levels the posterize label announces, as written:
      `Math.max(2, Math.round(param / 16))`. */
  function LabelLevelsAsWritten(param: real): int
  {
    var n := JsRound(param / 16.0);
    if n < 2 then 2 else n
  }

  /** The label names half the levels the filter uses at the default
      parameter: 8 against 16. */
  lemma LabelLevelsAsWrittenDisagrees()
    ensures LabelLevelsAsWritten(128.0) == 8
    ensures PosterizeLevels(128.0) == 16
  {
    assert (128.0 / 16.0 + 0.5).Floor == 8;
    assert (128.0 / 8.0 + 0.5).Floor == 16;
  }

  /** The level count the label announces, taken from the filter itself. */
  function LabelLevels(param: real): int
  {
    PosterizeLevels(param)
  }

  /** Every posterized sample is one of the announced levels: it is the
      store of level `k` for some `k` below the announced count. */
  lemma {:induction false} PosterizeLabelCountsLevels(param: real, v: Channel)
    ensures 2 <= LabelLevels(param) <= 32
    ensures exists k :: 0 <= k < LabelLevels(param)
              && Quantize(v, PosterizeLevels(param)) == ToByte(LevelValue(k, PosterizeLevels(param)))
  {
    var levels := PosterizeLevels(param);
    QuantizeIndex(v, levels);
    var k := SnapIndex(v as real, levels);
    assert Clamp(LevelValue(k, levels)) == LevelValue(k, levels);
    assert Quantize(v, levels) == ToByte(LevelValue(k, levels));
  }

  /** `buildLabel`, with the posterize count corrected. */
  function BuildLabel(kind: string, param: real): Label
  {
    if kind == "threshold" then ThresholdLabel(param)
    else if kind == "posterize" then PosterizeLabel(LabelLevels(param))
    else if kind == "custom" then CustomLabel
    else KindLabel(kind)
  }

  /** A step every filter can run: kernels are square, and a custom step
      carries its kernel. */
  predicate ValidStep(st: Step)
  {
    && (st.kernel.Some? ==> SquareKernel(st.kernel.value))
    && (st.kind == "custom" ==> st.kernel.Some?)
  }

  predicate AllValid(steps: seq<Step>)
  {
    forall i :: 0 <= i < |steps| ==> ValidStep(steps[i])
  }

  /** `buildStepFromUI`: the selected kind, its kernel (the grid for
      `custom`, the table entry otherwise) and the parameter. */
  function BuildStep(kind: string, param: real, grid: seq<real>): (st: Step)
    requires |grid| == 9
    ensures ValidStep(st) && st.kind == kind && st.param == param
    ensures kind == "custom" ==> st.kernel == Some(ReadCustomKernel(grid))
    ensures kind != "custom" ==> st.kernel == NamedKernel(kind)
  {
    var kernel := if kind == "custom" then Some(ReadCustomKernel(grid)) else NamedKernel(kind);
    NamedKernelsSquare(kind);
    Step(kind, kernel, param, BuildLabel(kind, param))
  }

  /* ---------------- running steps ---------------- */

  /** `runFilter`: the output of one step. */
  function RunFilter(s: seq<Channel>, width: nat, height: nat, st: Step): (r: seq<Channel>)
    requires Sized(s, width, height) && ValidStep(st)
    ensures |r| == |s|
  {
    SizedWhole(s, width, height);
    if st.kind == "threshold" then Thresholded(s, st.param)
    else if st.kind == "invert" then Inverted(s)
    else if st.kind == "sepia" then Sepia(s)
    else if st.kind == "posterize" then Posterized(s, st.param)
    else if st.kind == "custom" then Convolved(s, width, height, st.kernel.value)
    else if st.kernel.Some? then Convolved(s, width, height, st.kernel.value)
    else s
  }

  predicate KnownKind(kind: string)
  {
    kind in {"threshold", "invert", "sepia", "posterize", "custom"}
  }

  /** A step of unknown kind without a kernel hands back its input; one
      with a kernel convolves with it. */
  lemma UnknownKindFallsThrough(s: seq<Channel>, width: nat, height: nat, st: Step)
    requires Sized(s, width, height) && ValidStep(st) && !KnownKind(st.kind)
    ensures st.kernel.None? ==> RunFilter(s, width, height, st) == s
    ensures st.kernel.Some? ==> RunFilter(s, width, height, st) == Convolved(s, width, height, st.kernel.value)
  {
  }

  /** The steps folded left to right over `s`. */
  function RunSteps(s: seq<Channel>, width: nat, height: nat, steps: seq<Step>): (r: seq<Channel>)
    requires Sized(s, width, height) && AllValid(steps)
    ensures |r| == |s|
    decreases |steps|
  {
    if |steps| == 0 then s
    else RunSteps(RunFilter(s, width, height, steps[0]), width, height, steps[1..])
  }

  /** Appending a step runs it on the result of the steps before it. */
  lemma {:induction false} RunStepsAppend(s: seq<Channel>, width: nat, height: nat, steps: seq<Step>, st: Step)
    requires Sized(s, width, height) && AllValid(steps) && ValidStep(st)
    ensures AllValid(steps + [st])
    ensures RunSteps(s, width, height, steps + [st])
              == RunFilter(RunSteps(s, width, height, steps), width, height, st)
    decreases |steps|
  {
    if |steps| > 0 {
      assert (steps + [st])[1..] == steps[1..] + [st];
      RunStepsAppend(RunFilter(s, width, height, steps[0]), width, height, steps[1..], st);
    }
  }

  /** The steps that actually run: the list, or the selected step alone
      when the list is empty. */
  function EffectiveSteps(pipeline: seq<Step>, selected: Step): (r: seq<Step>)
    ensures |r| > 0
  {
    if |pipeline| == 0 then [selected] else pipeline
  }

  /** With an empty list, running the pipeline is running the selected
      filter once. */
  lemma EmptyPipelineRunsSelected(s: seq<Channel>, width: nat, height: nat, selected: Step)
    requires Sized(s, width, height) && ValidStep(selected)
    ensures RunSteps(s, width, height, EffectiveSteps([], selected)) == RunFilter(s, width, height, selected)
  {
  }

  /** Two invert steps in a row restore every colour sample. */
  lemma {:induction false} InvertInvertRestores(s: seq<Channel>, width: nat, height: nat)
    requires Sized(s, width, height)
    ensures var inv := Step("invert", None, 0.0, KindLabel("invert"));
      var r := RunSteps(s, width, height, [inv, inv]);
      forall j :: 0 <= j < |s| && j % 4 != 3 ==> r[j] == s[j]
  {
    var inv := Step("invert", None, 0.0, KindLabel("invert"));
    assert [inv, inv][1..] == [inv];
    assert [inv][1..] == [];
    assert RunSteps(Inverted(s), width, height, [inv]) == Inverted(Inverted(s));
    assert RunSteps(s, width, height, [inv, inv]) == Inverted(Inverted(s));
    InvertTwice(s);
  }

  /* ---------------- editing the list ---------------- */

  /** The list with the entries at `i` and `t` exchanged. */
  function Swapped<T>(p: seq<T>, i: nat, t: nat): seq<T>
    requires i < |p| && t < |p|
  {
    p[i := p[t]][t := p[i]]
  }

  /** A swap exchanges exactly two entries and keeps the multiset of
      entries; swapping again restores the list. */
  lemma SwapExchanges<T>(p: seq<T>, i: nat, t: nat)
    requires i < |p| && t < |p|
    ensures |Swapped(p, i, t)| == |p|
    ensures Swapped(p, i, t)[i] == p[t] && Swapped(p, i, t)[t] == p[i]
    ensures forall k :: 0 <= k < |p| && k != i && k != t ==> Swapped(p, i, t)[k] == p[k]
    ensures multiset(Swapped(p, i, t)) == multiset(p)
    ensures Swapped(Swapped(p, i, t), i, t) == p
  {
    var q := p[i := p[t]];
    assert multiset(q) == multiset(p) - multiset{p[i]} + multiset{p[t]};
  }

  /** The list without the entry at `i`. */
  function Removed<T>(p: seq<T>, i: nat): seq<T>
    requires i < |p|
  {
    p[..i] + p[i + 1..]
  }

  /** Removing drops exactly the entry at `i` and keeps the rest in order. */
  lemma RemovedDropsOne<T>(p: seq<T>, i: nat)
    requires i < |p|
    ensures |Removed(p, i)| == |p| - 1
    ensures forall k :: 0 <= k < i ==> Removed(p, i)[k] == p[k]
    ensures forall k :: i <= k < |p| - 1 ==> Removed(p, i)[k] == p[k + 1]
    ensures multiset(Removed(p, i)) + multiset{p[i]} == multiset(p)
  {
    assert p == p[..i] + [p[i]] + p[i + 1..];
  }

  /* ---------------- the imperative side ---------------- */

  lemma SizedWhole(s: seq<Channel>, width: nat, height: nat)
    requires Sized(s, width, height)
    ensures |s| % 4 == 0
  {
    assert 4 * width * height == 4 * (width * height);
  }

  /** `runFilter` on a buffer; an unknown kind without a kernel returns the
      very buffer it was given. */
  method RunFilterOn(data: array<Channel>, width: nat, height: nat, st: Step) returns (output: array<Channel>)
    requires Sized(data[..], width, height) && ValidStep(st)
    ensures output[..] == RunFilter(data[..], width, height, st)
    ensures !KnownKind(st.kind) && st.kernel.None? ==> output == data
  {
    SizedWhole(data[..], width, height);
    if st.kind == "threshold" {
      output := ApplyThreshold(data, st.param);
    } else if st.kind == "invert" {
      output := ApplyInvert(data);
    } else if st.kind == "sepia" {
      output := ApplySepia(data);
    } else if st.kind == "posterize" {
      output := ApplyPosterize(data, st.param);
    } else if st.kind == "custom" {
      output := ApplyConvolution(data, width, height, st.kernel.value);
    } else if st.kernel.Some? {
      output := ApplyConvolution(data, width, height, st.kernel.value);
    } else {
      output := data;
    }
  }

  /** `cloneImageData`: a fresh buffer with the same samples. */
  method CloneBuffer(data: array<Channel>) returns (copy: array<Channel>)
    ensures fresh(copy) && copy[..] == data[..]
  {
    copy := new Channel[data.Length];
    forall i | 0 <= i < data.Length {
      copy[i] := data[i];
    }
  }

  /** The `forEach` of `runPipeline`: each step's output feeds the next. */
  method RunAll(input: array<Channel>, width: nat, height: nat, steps: seq<Step>) returns (output: array<Channel>)
    requires Sized(input[..], width, height) && AllValid(steps)
    ensures output[..] == RunSteps(input[..], width, height, steps)
  {
    ghost var s := input[..];
    output := input;
    var i := 0;
    while i < |steps|
      invariant 0 <= i <= |steps|
      invariant output[..] == RunSteps(s, width, height, steps[..i])
    {
      RunStepsAppend(s, width, height, steps[..i], steps[i]);
      assert steps[..i + 1] == steps[..i] + [steps[i]];
      output := RunFilterOn(output, width, height, steps[i]);
      i := i + 1;
    }
    assert steps[..i] == steps;
  }

  /** The page's image state: the step list, the loaded original, the last
      processed result and its blend with the original. */
  class Session {
    var pipeline: seq<Step>
    var width: nat
    var height: nat
    var hasImage: bool
    var original: array<Channel>
    var processed: array<Channel>
    var blended: array<Channel>

    predicate Valid()
      reads this
    {
      && original.Length == 4 * width * height
      && processed.Length == original.Length
      && blended.Length == original.Length
      && AllValid(pipeline)
    }

    /** The page before any image has loaded. */
    constructor()
      ensures Valid() && pipeline == [] && !hasImage
    {
      pipeline := [];
      width, height := 0, 0;
      hasImage := false;
      var empty := new Channel[0];
      original, processed, blended := empty, empty, empty;
    }

    /** `renderWithBlend`: blend the processed image into the original with
        opacity `alpha`. */
    method RenderWithBlend(alpha: real)
      modifies this
      requires Valid()
      ensures Valid() && pipeline == old(pipeline) && hasImage == old(hasImage)
      ensures width == old(width) && height == old(height)
      ensures original == old(original) && processed == old(processed)
      ensures hasImage ==> blended[..] == Blended(original[..], processed[..], alpha)
      ensures !hasImage ==> blended == old(blended)
    {
      if !hasImage {
        return;
      }
      SizedWhole(original[..], width, height);
      blended := BlendWithOriginal(original, processed, alpha);
    }

    /** `applySelectedFilter`: run the step built from the controls on the
        original, then blend. */
    method ApplySelectedFilter(selected: Step, alpha: real)
      modifies this
      requires Valid() && ValidStep(selected)
      ensures Valid() && pipeline == old(pipeline) && hasImage == old(hasImage)
      ensures width == old(width) && height == old(height) && original == old(original)
      ensures hasImage ==> processed[..] == RunFilter(original[..], width, height, selected)
      ensures hasImage ==> blended[..] == Blended(original[..], processed[..], alpha)
      ensures !hasImage ==> processed == old(processed) && blended == old(blended)
    {
      if !hasImage {
        return;
      }
      processed := RunFilterOn(original, width, height, selected);
      RenderWithBlend(alpha);
    }

    /** `loadImage`: the decoded image becomes the original, the processed
        and the blended image, then the selected filter runs. */
    method LoadImage(data: seq<Channel>, w: nat, h: nat, selected: Step, alpha: real)
      modifies this
      requires Valid() && |data| == 4 * w * h && ValidStep(selected)
      ensures Valid() && hasImage && pipeline == old(pipeline)
      ensures width == w && height == h && original[..] == data
      ensures processed[..] == RunFilter(data, w, h, selected)
      ensures blended[..] == Blended(original[..], processed[..], alpha)
    {
      var image := new Channel[|data|](i requires 0 <= i < |data| => data[i]);
      width, height := w, h;
      original, processed, blended := image, image, image;
      hasImage := true;
      ApplySelectedFilter(selected, alpha);
    }

    /** `runPipeline`: fold the list (or the selected step when the list is
        empty) over a copy of the original, then blend.  The original is
        never written. */
    method RunPipeline(selected: Step, alpha: real)
      modifies this
      requires Valid() && ValidStep(selected)
      ensures Valid() && pipeline == old(pipeline) && hasImage == old(hasImage)
      ensures width == old(width) && height == old(height)
      ensures original == old(original) && original[..] == old(original[..])
      ensures hasImage ==> processed[..] == RunSteps(original[..], width, height, EffectiveSteps(pipeline, selected))
      ensures hasImage ==> blended[..] == Blended(original[..], processed[..], alpha)
      ensures !hasImage ==> processed == old(processed) && blended == old(blended)
    {
      if !hasImage {
        return;
      }
      if |pipeline| == 0 {
        ApplySelectedFilter(selected, alpha);
        EmptyPipelineRunsSelected(original[..], width, height, selected);
        return;
      }
      var data := CloneBuffer(original);
      data := RunAll(data, width, height, pipeline);
      processed := data;
      RenderWithBlend(alpha);
    }

    /** The "add to pipeline" button: push the step built from the
        controls. */
    method AddStep(st: Step)
      modifies this
      requires Valid() && ValidStep(st)
      ensures Valid() && pipeline == old(pipeline) + [st]
      ensures hasImage == old(hasImage) && original == old(original) && width == old(width) && height == old(height)
      ensures processed == old(processed) && blended == old(blended)
    {
      pipeline := pipeline + [st];
    }

    /** The "clear" button: empty the list, then run (which falls back to
        the selected filter). */
    method ClearPipeline(selected: Step, alpha: real)
      modifies this
      requires Valid() && ValidStep(selected)
      ensures Valid() && pipeline == [] && hasImage == old(hasImage) && original == old(original)
      ensures width == old(width) && height == old(height)
      ensures hasImage ==> processed[..] == RunFilter(original[..], width, height, selected)
      ensures hasImage ==> blended[..] == Blended(original[..], processed[..], alpha)
      ensures !hasImage ==> processed == old(processed) && blended == old(blended)
    {
      pipeline := [];
      RunPipeline(selected, alpha);
      EmptyPipelineRunsSelected(original[..], width, height, selected);
    }

    /** `moveStep`: swap entry `index` with its neighbour `index + delta`,
        or do nothing when that neighbour does not exist. */
    method MoveStep(index: nat, delta: int, selected: Step, alpha: real)
      modifies this
      requires Valid() && ValidStep(selected) && index < |pipeline|
      ensures Valid() && hasImage == old(hasImage) && original == old(original)
      ensures width == old(width) && height == old(height)
      ensures var t := index + delta;
        if 0 <= t < |old(pipeline)| then pipeline == Swapped(old(pipeline), index, t)
        else pipeline == old(pipeline) && processed == old(processed) && blended == old(blended)
      ensures 0 <= index + delta < |old(pipeline)| ==>
        (hasImage ==> processed[..] == RunSteps(original[..], width, height, EffectiveSteps(pipeline, selected))) &&
        (hasImage ==> blended[..] == Blended(original[..], processed[..], alpha)) &&
        (!hasImage ==> processed == old(processed) && blended == old(blended))
    {
      var t := index + delta;
      if t < 0 || t >= |pipeline| {
        return;
      }
      SwapExchanges(pipeline, index, t);
      pipeline := Swapped(pipeline, index, t);
      RunPipeline(selected, alpha);
    }

    /** `removeStep`: delete entry `index`, then run. */
    method RemoveStep(index: nat, selected: Step, alpha: real)
      modifies this
      requires Valid() && ValidStep(selected) && index < |pipeline|
      ensures Valid() && hasImage == old(hasImage) && original == old(original)
      ensures width == old(width) && height == old(height)
      ensures pipeline == Removed(old(pipeline), index)
      ensures hasImage ==> processed[..] == RunSteps(original[..], width, height, EffectiveSteps(pipeline, selected))
      ensures hasImage ==> blended[..] == Blended(original[..], processed[..], alpha)
      ensures !hasImage ==> processed == old(processed) && blended == old(blended)
    {
      RemovedDropsOne(pipeline, index);
      pipeline := Removed(pipeline, index);
      RunPipeline(selected, alpha);
    }
  }
}
