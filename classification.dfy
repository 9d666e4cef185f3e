/**
 * The `useImageClassification` hook: `classifyImage` builds an image-classification
 * pipeline (WebGPU first, CPU when that throws), stages the file behind an object URL,
 * runs the classifier, keeps the top three results, always revokes the URL, turns any
 * error into the fixed result `[{unknown, 0.5}]`, and brackets the call with `isLoading`.
 *
 * The machine-learning library and the browser are outside the model: what each pipeline
 * construction and the inference itself do on one call is given as a `Run`.
 */
module Classification {

  /** One entry of a classifier's output. */
  datatype Scored = Scored(name: string, score: real)  // `{label, score}`

  /** What one attempt to construct a pipeline does: return a classifier or throw. */
  datatype Build = Built | BuildFailed

  /** What the classifier does with the staged image: return ranked results or throw. */
  datatype Inference = Inferred(results: seq<Scored>) | InferenceFailed

  /** The outcomes of the foreign calls made during one `classifyImage` call. `cpu` is consulted only if `webgpu` failed. */
  datatype Run = Run(webgpu: Build, cpu: Build, inference: Inference)

  datatype Device = WebGpu | Cpu

  /** An object URL handed out by `URL.createObjectURL`. */
  type Url = nat

  /** The observable side effects of the hook, in the order they happen. */
  datatype HookEvent =
    | LoadingSet(on: bool)          // setIsLoading(on)
    | BuildAttempted(device: Device) // pipeline(...) called for that device
    | UrlCreated(url: Url)          // URL.createObjectURL(file)
    | ClassifierInvoked(url: Url)   // classifier(imageUrl)
    | UrlRevoked(url: Url)          // URL.revokeObjectURL(imageUrl)

  /** The result returned whenever anything in the call throws. */
  const Unknown: Scored := Scored("unknown", 0.5)

  /** Some pipeline construction succeeded, so a classifier exists for this call. */
  predicate HasClassifier(run: Run) {
    run.webgpu == Built || run.cpu == Built
  }

  /** `results.slice(0, 3)`. */
  function TopThree(results: seq<Scored>): (r: seq<Scored>)
    ensures |r| == if |results| < 3 then |results| else 3
    ensures r == results[..|r|]
  {
    if |results| <= 3 then results else results[..3]
  }

  /** The value `classifyImage` resolves to: it never rejects. */
  function Classify(run: Run): (r: seq<Scored>)
    ensures 1 <= |r| || (HasClassifier(run) && run.inference == Inferred([]))
    ensures |r| <= 3
    ensures HasClassifier(run) && run.inference.Inferred? ==>
      var n := |run.inference.results|;
      |r| == (if n < 3 then n else 3) && r == run.inference.results[..|r|]
    ensures !HasClassifier(run) || run.inference.InferenceFailed? ==> r == [Unknown]
  {
    if HasClassifier(run) && run.inference.Inferred? then TopThree(run.inference.results) else [Unknown]
  }

  /** The pipeline constructions of one call: WebGPU, then the CPU if WebGPU threw. */
  function BuildEvents(run: Run): seq<HookEvent> {
    [BuildAttempted(WebGpu)] + if run.webgpu == Built then [] else [BuildAttempted(Cpu)]
  }

  /** The object-URL events of one call handed `url`: none unless a pipeline was built. */
  function UrlEvents(run: Run, url: Url): seq<HookEvent> {
    if HasClassifier(run) then [UrlCreated(url), ClassifierInvoked(url), UrlRevoked(url)] else []
  }

  /** The events of one call that is handed `url` as its object URL, should it create one. */
  function CallTrace(run: Run, url: Url): (t: seq<HookEvent>)
    ensures forall u :: UrlCreated(u) in t <==> u == url && HasClassifier(run)
    ensures forall u :: ClassifierInvoked(u) in t <==> u == url && HasClassifier(run)
  {
    [LoadingSet(true)] + BuildEvents(run) + UrlEvents(run, url) + [LoadingSet(false)]
  }

  /** How many object URLs one call creates. */
  function UrlsUsed(run: Run): nat {
    if HasClassifier(run) then 1 else 0
  }

  /**
   * The first URL free after a sequence of calls that started at `url`: one URL per call that
   * built a pipeline, so it moves by the number of calls exactly when every call built one.
   */
  function UrlAfter(runs: seq<Run>, url: Url): (r: Url)
    ensures url <= r <= url + |runs|
    ensures r == url + |runs| <==> forall i | 0 <= i < |runs| :: HasClassifier(runs[i])
    decreases |runs|
  {
    if |runs| == 0 then url
    else
      var init := runs[..|runs| - 1];
      assert forall i | 0 <= i < |init| :: init[i] == runs[i];
      UrlAfter(init, url) + UrlsUsed(runs[|runs| - 1])
  }

  /** The events of consecutive calls, each handed the next free URL. */
  function Traces(runs: seq<Run>, url: Url): (r: seq<HookEvent>)
    ensures forall u: Url :: UrlCreated(u) in r ==> url <= u < UrlAfter(runs, url)
    decreases |runs|
  {
    if |runs| == 0 then []
    else
      var init := runs[..|runs| - 1];
      assert UrlAfter(runs, url) == UrlAfter(init, url) + UrlsUsed(runs[|runs| - 1]);
      Traces(init, url) + CallTrace(runs[|runs| - 1], UrlAfter(init, url))
  }

  /** Every call sets `isLoading` first, clears it last, and touches it nowhere else. */
  lemma CallBracketedByLoading(run: Run, url: Url)
    ensures var t := CallTrace(run, url);
      |t| >= 3 && t[0] == LoadingSet(true) && t[|t| - 1] == LoadingSet(false)
      && forall k | 0 < k < |t| - 1 :: !t[k].LoadingSet?
  {
  }

  /** The CPU pipeline is built exactly when building the WebGPU pipeline threw. */
  lemma CpuOnlyAfterWebGpuFails(run: Run, url: Url)
    ensures BuildAttempted(Cpu) in CallTrace(run, url) <==> run.webgpu == BuildFailed
    ensures BuildAttempted(WebGpu) in CallTrace(run, url)
  {
    var t := CallTrace(run, url);
    assert t[1] == BuildAttempted(WebGpu);
    if run.webgpu == BuildFailed {
      assert t[2] == BuildAttempted(Cpu);
    }
  }

  /** The number of times `e` occurs in `log`. */
  function Count(log: seq<HookEvent>, e: HookEvent): nat {
    if |log| == 0 then 0 else Count(log[..|log| - 1], e) + if log[|log| - 1] == e then 1 else 0
  }

  lemma {:induction false} CountAppend(a: seq<HookEvent>, b: seq<HookEvent>, e: HookEvent)
    ensures Count(a + b, e) == Count(a, e) + Count(b, e)
    decreases |b|
  {
    if |b| == 0 {
      assert a + b == a;
    } else {
      assert (a + b)[..|a + b| - 1] == a + b[..|b| - 1];
      CountAppend(a, b[..|b| - 1], e);
    }
  }

  lemma {:induction false} CountAbsent(log: seq<HookEvent>, e: HookEvent)
    requires e !in log
    ensures Count(log, e) == 0
    decreases |log|
  {
    if |log| > 0 {
      assert forall x | x in log[..|log| - 1] :: x in log;
      CountAbsent(log[..|log| - 1], e);
    }
  }

  /** 1 if `x` is `e`, else 0. */
  function Hit(x: HookEvent, e: HookEvent): nat {
    if x == e then 1 else 0
  }

  lemma CountSingle(x: HookEvent, e: HookEvent)
    ensures Count([x], e) == Hit(x, e)
  {
    assert [x][..0] == [];
  }

  /** How often `e` occurs in one call's trace, event by event. */
  lemma CountCall(run: Run, url: Url, e: HookEvent)
    ensures Count(CallTrace(run, url), e)
      == Hit(LoadingSet(true), e) + Hit(BuildAttempted(WebGpu), e)
         + (if run.webgpu == Built then 0 else Hit(BuildAttempted(Cpu), e))
         + (if HasClassifier(run) then Hit(UrlCreated(url), e) + Hit(ClassifierInvoked(url), e) + Hit(UrlRevoked(url), e) else 0)
         + Hit(LoadingSet(false), e)
  {
    var a, b, c, d := [LoadingSet(true)], BuildEvents(run), UrlEvents(run, url), [LoadingSet(false)];
    CountSingle(LoadingSet(true), e);
    CountSingle(LoadingSet(false), e);
    CountSingle(BuildAttempted(WebGpu), e);
    CountAppend(a, b, e);
    CountAppend(a + b, c, e);
    CountAppend(a + b + c, d, e);
    if run.webgpu != Built {
      CountSingle(BuildAttempted(Cpu), e);
      CountAppend([BuildAttempted(WebGpu)], [BuildAttempted(Cpu)], e);
    } else {
      assert b == [BuildAttempted(WebGpu)];
    }
    if HasClassifier(run) {
      CountSingle(UrlCreated(url), e);
      CountSingle(ClassifierInvoked(url), e);
      CountSingle(UrlRevoked(url), e);
      CountAppend([UrlCreated(url)], [ClassifierInvoked(url)], e);
      CountAppend([UrlCreated(url), ClassifierInvoked(url)], [UrlRevoked(url)], e);
      assert c == [UrlCreated(url), ClassifierInvoked(url)] + [UrlRevoked(url)];
    }
  }

  /** An object URL is created and revoked exactly once when some pipeline was built, and never otherwise. */
  lemma UrlLifecycle(run: Run, url: Url)
    ensures var t := CallTrace(run, url);
      Count(t, UrlCreated(url)) == UrlsUsed(run) && Count(t, UrlRevoked(url)) == UrlsUsed(run)
  {
    CountCall(run, url, UrlCreated(url));
    CountCall(run, url, UrlRevoked(url));
  }

  /** The classifier only ever sees the URL while it exists: created right before, revoked right after. */
  lemma UrlUsedWhileAlive(run: Run, url: Url)
    requires HasClassifier(run)
    ensures var t := CallTrace(run, url);
      exists i | 0 <= i < |t| - 2 :: t[i] == UrlCreated(url) && t[i + 1] == ClassifierInvoked(url) && t[i + 2] == UrlRevoked(url)
  {
    var t := CallTrace(run, url);
    var i := 1 + |BuildEvents(run)|;
    assert t[i] == UrlCreated(url) && t[i + 1] == ClassifierInvoked(url) && t[i + 2] == UrlRevoked(url);
  }

  /** A call touches no object URL but the one it is handed. */
  lemma OnlyOwnUrl(run: Run, url: Url, u: Url)
    requires u != url
    ensures Count(CallTrace(run, url), UrlCreated(u)) == 0 && Count(CallTrace(run, url), UrlRevoked(u)) == 0
  {
    var t := CallTrace(run, url);
    assert UrlCreated(u) !in t && UrlRevoked(u) !in t;
    CountAbsent(t, UrlCreated(u));
    CountAbsent(t, UrlRevoked(u));
  }

  /** Each call constructs exactly one WebGPU pipeline. */
  lemma OneWebGpuBuildPerCall(run: Run, url: Url)
    ensures Count(CallTrace(run, url), BuildAttempted(WebGpu)) == 1
  {
    CountCall(run, url, BuildAttempted(WebGpu));
  }

  /** No classifier is cached: `n` calls construct `n` WebGPU pipelines. */
  lemma {:induction false} NewPipelinePerCall(runs: seq<Run>, url: Url)
    ensures Count(Traces(runs, url), BuildAttempted(WebGpu)) == |runs|
    decreases |runs|
  {
    if |runs| > 0 {
      var init := runs[..|runs| - 1];
      NewPipelinePerCall(init, url);
      OneWebGpuBuildPerCall(runs[|runs| - 1], UrlAfter(init, url));
      CountAppend(Traces(init, url), CallTrace(runs[|runs| - 1], UrlAfter(init, url)), BuildAttempted(WebGpu));
    }
  }

  /** The URL bookkeeping the hook keeps between calls: each created URL revoked once, none at or above `next`. */
  ghost predicate UrlsBalanced(log: seq<HookEvent>, next: Url) {
    && (forall u :: Count(log, UrlCreated(u)) == Count(log, UrlRevoked(u)) <= 1)
    && (forall u | u >= next :: Count(log, UrlCreated(u)) == 0)
  }

  /** A call handed the next free URL keeps the bookkeeping balanced. */
  lemma CallKeepsUrlsBalanced(log: seq<HookEvent>, next: Url, run: Run)
    requires UrlsBalanced(log, next)
    ensures UrlsBalanced(log + CallTrace(run, next), next + UrlsUsed(run))
  {
    var t := CallTrace(run, next);
    UrlLifecycle(run, next);
    forall u
      ensures Count(log + t, UrlCreated(u)) == Count(log, UrlCreated(u)) + Count(t, UrlCreated(u))
      ensures Count(log + t, UrlRevoked(u)) == Count(log, UrlRevoked(u)) + Count(t, UrlRevoked(u))
      ensures u != next ==> Count(t, UrlCreated(u)) == 0 && Count(t, UrlRevoked(u)) == 0
    {
      CountAppend(log, t, UrlCreated(u));
      CountAppend(log, t, UrlRevoked(u));
      if u != next {
        OnlyOwnUrl(run, next, u);
      }
    }
  }

  /** Any sequence of calls revokes every object URL it creates exactly once. */
  lemma {:induction false} TracesBalanced(runs: seq<Run>, url: Url)
    ensures UrlsBalanced(Traces(runs, url), UrlAfter(runs, url))
    decreases |runs|
  {
    if |runs| > 0 {
      var init := runs[..|runs| - 1];
      TracesBalanced(init, url);
      CallKeepsUrlsBalanced(Traces(init, url), UrlAfter(init, url), runs[|runs| - 1]);
    }
  }

  /** One more call extends the log by that call's events and moves the URL counter past its URL. */
  lemma TracesSnoc(runs: seq<Run>, run: Run)
    ensures UrlAfter(runs + [run], 0) == UrlAfter(runs, 0) + UrlsUsed(run)
    ensures Traces(runs + [run], 0) == Traces(runs, 0) + CallTrace(run, UrlAfter(runs, 0))
  {
    assert (runs + [run])[..|runs|] == runs;
  }

  /**
   * The hook's state: the `isLoading` flag, the log of its side effects, and the next
   * object URL the browser will hand out. `calls` records the outcomes of the calls made so far.
   */
  class ImageClassifier {
    var isLoading: bool
    var log: seq<HookEvent>
    var nextUrl: Url
    ghost var calls: seq<Run>

    /** Between calls: not loading, and the log is exactly the side effects of the calls made so far. */
    ghost predicate Valid()
      reads this
    {
      !isLoading && log == Traces(calls, 0) && nextUrl == UrlAfter(calls, 0)
    }

    constructor ()
      ensures Valid() && log == [] && nextUrl == 0 && calls == []
    {
      isLoading := false;
      log := [];
      nextUrl := 0;
      calls := [];
    }

    /**
     * `classifyImage(file)`, whose foreign calls behave as `run` says. The call may start
     * whenever no other call is in progress; it keeps the log consistent with the calls made.
     */
    method ClassifyImage(run: Run) returns (r: seq<Scored>)
      requires !isLoading
      modifies this
      ensures !isLoading
      ensures old(Valid()) ==> Valid()
      ensures r == Classify(run)
      ensures calls == old(calls) + [run]
      ensures log == old(log) + CallTrace(run, old(nextUrl))
      ensures nextUrl == old(nextUrl) + UrlsUsed(run)
    {
      ghost var trace := CallTrace(run, nextUrl);
      calls := calls + [run];
      isLoading := true;
      log := log + [LoadingSet(true)];
      var built := BuildPipeline(run);
      if !built {
        // the CPU construction threw: the outer catch returns the fallback
        r := [Unknown];
      } else {
        r := RunOnObjectUrl(run);
      }
      isLoading := false;
      log := log + [LoadingSet(false)];
      assert log == old(log) + trace;
      if old(Valid()) {
        TracesSnoc(old(calls), run);
      }
    }

    /** Construct the pipeline on WebGPU, falling back to the CPU when that throws; `built` says whether either succeeded. */
    method BuildPipeline(run: Run) returns (built: bool)
      modifies this
      ensures built <==> HasClassifier(run)
      ensures log == old(log) + BuildEvents(run)
      ensures isLoading == old(isLoading) && nextUrl == old(nextUrl) && calls == old(calls)
    {
      log := log + [BuildAttempted(WebGpu)];
      if run.webgpu == Built {
        built := true;
      } else {
        log := log + [BuildAttempted(Cpu)];
        built := run.cpu == Built;
      }
    }

    /**
     * Stage the image behind a fresh object URL, run the classifier on it, keep its top three
     * results (or the fallback if it throws), and revoke the URL whatever happened.
     */
    method RunOnObjectUrl(run: Run) returns (r: seq<Scored>)
      modifies this
      requires HasClassifier(run)
      ensures r == if run.inference.Inferred? then TopThree(run.inference.results) else [Unknown]
      ensures log == old(log) + UrlEvents(run, old(nextUrl))
      ensures nextUrl == old(nextUrl) + 1
      ensures isLoading == old(isLoading) && calls == old(calls)
    {
      var url := nextUrl;
      nextUrl := nextUrl + 1;
      log := log + [UrlCreated(url), ClassifierInvoked(url)];
      match run.inference {
        case Inferred(results) =>
          r := TopThree(results);
        case InferenceFailed =>
          r := [Unknown];
      }
      log := log + [UrlRevoked(url)];
    }
  }
}
