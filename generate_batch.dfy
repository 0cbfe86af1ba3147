/**
 * The bookkeeping of `generate_batch.py`: pairing command-line arguments into
 * jobs, choosing the job source, one job's result record, and the batch
 * summary over the order in which the jobs complete.
 *
 * The thread pool is modelled as a fold over an arbitrary completion order.
 * Each job sees its own environment: the files it reads, the base64 codec,
 * the remote service (answering a request it reads back), the unique id,
 * whether writing succeeds, and the size and elapsed-time texts.
 *
 * The source's helpers call `sys.exit` on several failures. That raises
 * SystemExit, which the job's `except Exception` does not catch, and
 * `future.result()` re-raises it in the main thread (an `Aborted` outcome
 * here). That aborts the collection of results, the summary and the exit
 * status `run_batch` and `main` would compute; every job was submitted
 * before collection began, and the executor's shutdown still lets the other
 * jobs run to completion. Only ordinary exceptions become "error" records.
 */
module GenerateBatch {
  import opened Base
  import opened Text
  import opened JsonValue
  import opened ImageFormat
  import opened Paths
  import opened GenerateImage
  import opened GenerateWithPreset

  // ------------------------------------------------------------- CLI pairs

  /** How `parse_cli_jobs` ends: the (prompt, output) pairs, or exit status 1
      naming the prompt that has no output path. */
  datatype CliJobs = CliPairs(pairs: seq<(string, string)>) | MissingOutput(prompt: string)

  /** `parse_cli_jobs`: consecutive arguments pair up as prompt and output. */
  method ParseCliJobs(args: seq<string>) returns (r: CliJobs)
    ensures |args| % 2 == 0 ==> r.CliPairs? && |r.pairs| == |args| / 2
    ensures r.CliPairs? ==>
      |args| == 2 * |r.pairs| && forall k :: 0 <= k < |r.pairs| ==> r.pairs[k] == (args[2 * k], args[2 * k + 1])
    ensures |args| % 2 == 1 <==> args != [] && r == MissingOutput(args[|args| - 1])
  {
    var jobs: seq<(string, string)> := [];
    var i := 0;
    while i < |args|
      invariant i % 2 == 0 && i <= |args| && |jobs| == i / 2
      invariant forall k :: 0 <= k < |jobs| ==> jobs[k] == (args[2 * k], args[2 * k + 1])
    {
      if i + 1 >= |args| {
        return MissingOutput(args[i]);
      }
      jobs := jobs + [(args[i], args[i + 1])];
      i := i + 2;
    }
    return CliPairs(jobs);
  }

  /** The arguments a list of pairs came from. */
  function Flatten(pairs: seq<(string, string)>): (args: seq<string>)
    ensures |args| == 2 * |pairs|
  {
    if pairs == [] then [] else [pairs[0].0, pairs[0].1] + Flatten(pairs[1..])
  }

  /** The pairs of `parse_cli_jobs` flatten back to the arguments. */
  lemma {:induction false} PairsFlattenToArgs(args: seq<string>, pairs: seq<(string, string)>)
    requires |args| == 2 * |pairs|
    requires forall k :: 0 <= k < |pairs| ==> pairs[k] == (args[2 * k], args[2 * k + 1])
    ensures Flatten(pairs) == args
  {
    if pairs != [] {
      PairsFlattenToArgs(args[2..], pairs[1..]);
      assert forall k :: 0 <= k < |pairs| - 1 ==> pairs[1..][k] == pairs[k + 1];
      assert args == [args[0], args[1]] + args[2..];
    }
  }

  /** A command-line job as `parse_cli_jobs` builds it. */
  function CliJob(pair: (string, string)): Json {
    JObject([("prompt", JString(pair.0)), ("output", JString(pair.1))])
  }

  /** A command-line job reads back, in `generate_single`, as its own pair. */
  lemma CliJobFields(pair: (string, string))
    ensures JobFields(CliJob(pair)) == Some(pair)
  {
    assert "prompt"[0] != "output"[0];
    LookupLast(CliJob(pair).members, "prompt", 0);
    LookupLast(CliJob(pair).members, "output", 1);
  }

  // ------------------------------------------------------------ job source

  /** The jobs and preset `main` hands to the batch, or how it ends before. */
  datatype JobSource =
    | JobList(jobs: seq<Json>, preset: Option<Json>)
    | NoArguments          // usage printed, exit 1
    | JsonFileMissing      // exit 1
    | JsonUnreadable       // `json.load` raises (not JSON, or a directory): traceback, exit 1
    | JsonNotObject        // `data.get` raises AttributeError
    | CliMissingOutput(prompt: string)
    | NoJobs               // "No jobs to process", exit 1
    | JobsNotList          // a truthy "jobs" value that is not a list (not modelled further)

  /** The job source of `main`: exactly one argument ending in ".json" reads
      jobs from that file, where a non-empty `--preset` overrides its
      "preset"; otherwise the arguments are prompt/output pairs. No jobs at all
      ends with exit status 1 before the batch starts. `jsonFiles` maps each
      existing path to its parsed content, or to None when `json.load` rejects it. */
  method SelectJobs(args: seq<string>, cliPreset: Option<string>, jsonFiles: map<string, Option<Json>>)
    returns (r: JobSource)
    ensures args == [] <==> r == NoArguments
    ensures |args| == 1 && EndsWith(args[0], ".json") ==>
      (args[0] !in jsonFiles <==> r == JsonFileMissing)
      && (args[0] in jsonFiles && jsonFiles[args[0]].None? <==> r == JsonUnreadable)
      && (args[0] in jsonFiles && jsonFiles[args[0]].Some? && !jsonFiles[args[0]].value.JObject? <==> r == JsonNotObject)
    ensures r.JobList? ==> |r.jobs| > 0
    ensures args != [] && !(|args| == 1 && EndsWith(args[0], ".json")) ==>
      (|args| % 2 == 1 <==> r == CliMissingOutput(args[|args| - 1]))
      && (|args| % 2 == 0 <==> r.JobList?)
    ensures |args| == 1 && EndsWith(args[0], ".json") && args[0] in jsonFiles
            && jsonFiles[args[0]].Some? && jsonFiles[args[0]].value.JObject? ==>
      var found := Get(jsonFiles[args[0]].value, "jobs", JArray([])).value;
      (r == NoJobs <==> !Truthy(found))
      && (r == JobsNotList <==> Truthy(found) && !found.JArray?)
      && (r.JobList? <==> found.JArray? && found.items != [])
    ensures r.JobList? && |args| == 1 && EndsWith(args[0], ".json") ==>
      args[0] in jsonFiles && jsonFiles[args[0]].Some?
      && Get(jsonFiles[args[0]].value, "jobs", JArray([])) == Some(JArray(r.jobs))
      && Get(jsonFiles[args[0]].value, "preset", JNull).Some?
      && r.preset == (if Given(cliPreset) then Some(JString(cliPreset.value))
                      else if Get(jsonFiles[args[0]].value, "preset", JNull) == Some(JNull) then None
                      else Get(jsonFiles[args[0]].value, "preset", JNull))
    ensures r.JobList? && !(|args| == 1 && EndsWith(args[0], ".json")) ==>
      |args| == 2 * |r.jobs| && (forall k :: 0 <= k < |r.jobs| ==> r.jobs[k] == CliJob((args[2 * k], args[2 * k + 1])))
      && r.preset == (if cliPreset.Some? then Some(JString(cliPreset.value)) else None)
  {
    if args == [] {
      return NoArguments;
    }
    var preset: Option<Json> := if cliPreset.Some? then Some(JString(cliPreset.value)) else None;
    var jobs: Json;
    if |args| == 1 && EndsWith(args[0], ".json") {
      if args[0] !in jsonFiles {
        return JsonFileMissing;
      }
      if jsonFiles[args[0]].None? {
        return JsonUnreadable;
      }
      var data := jsonFiles[args[0]].value;
      var found := Get(data, "jobs", JArray([]));
      if found.None? {
        return JsonNotObject;
      }
      jobs := found.value;
      if !Given(cliPreset) {
        var p := Get(data, "preset", JNull);
        preset := if p == Some(JNull) then None else p;
      }
    } else {
      var parsed := ParseCliJobs(args);
      if parsed.MissingOutput? {
        return CliMissingOutput(parsed.prompt);
      }
      jobs := JArray(seq(|parsed.pairs|, k requires 0 <= k < |parsed.pairs| => CliJob(parsed.pairs[k])));
    }
    if !Truthy(jobs) {
      return NoJobs;
    }
    if !jobs.JArray? {
      return JobsNotList;
    }
    return JobList(jobs.items, preset);
  }

  // -------------------------------------------------------------- one job

  /** `job.get("input", job.get("inputs", []))`, with a single string made a list. */
  function NormalizeInputs(members: seq<(string, Json)>): (r: Json)
    ensures Lookup(members, "input").Some? && !Lookup(members, "input").value.JString? ==>
      r == Lookup(members, "input").value
    ensures (Lookup(members, "input").None? && Lookup(members, "inputs").Some?
      && !Lookup(members, "inputs").value.JString?) ==> r == Lookup(members, "inputs").value
    ensures Lookup(members, "input").None? && Lookup(members, "inputs").None? ==> r == JArray([])
    ensures !r.JString?
  {
    var v := match Lookup(members, "input")
      case Some(x) => x
      case None => (match Lookup(members, "inputs") case Some(y) => y case None => JArray([]));
    if v.JString? then JArray([v]) else v
  }

  /** A single string under "input" (or, without "input", under "inputs") is a one-element list. */
  lemma SingleInputIsList(members: seq<(string, Json)>, path: string)
    requires Lookup(members, "input") == Some(JString(path))
      || (Lookup(members, "input").None? && Lookup(members, "inputs") == Some(JString(path)))
    ensures NormalizeInputs(members) == JArray([JString(path)])
  {
  }

  /** "input" takes priority over "inputs". */
  lemma InputBeatsInputs(members: seq<(string, Json)>)
    requires Lookup(members, "input").Some? && Lookup(members, "inputs").Some?
    ensures NormalizeInputs(members) ==
      (var v := Lookup(members, "input").value; if v.JString? then JArray([v]) else v)
  {
  }

  datatype Status = Pending | Success | Error

  /** What a failed job reports: a ValueError's message, or the kind of another
      ordinary exception (its text is the interpreter's). */
  datatype ErrorInfo = Message(text: string) | PythonError(kind: string)

  const NoImageDataMessage := "No image data received from API"
  const NoCandidatesMessage := "No candidates in response"
  const NoImagePartMessage := "No image data found in response parts"

  /** The result dict of `generate_single`. */
  datatype JobResult = JobResult(
    prompt: string, output: string, status: Status,
    finalPath: Option<string>, size: Option<string>, elapsed: Option<string>, error: Option<ErrorInfo>)

  /** Why an exception escaped a job and aborted result collection: a
      SystemExit, or for a malformed job an exception raised before its `try`. */
  datatype AbortReason =
    | MalformedJob                 // not a dict, or "prompt"/"output" missing or not strings
    | InputImageMissing(path: string)
    | ApiExit
    | ResponseUnreadable
    | SaveExit

  datatype JobOutcome = Finished(result: JobResult) | Aborted(reason: AbortReason)

  /** What `make_api_request` does: returns the decoded response, exits on an
      HTTP or connection error, or raises another exception. */
  datatype ApiReply = Reply(response: Json) | ApiExits | ApiRaises(kind: string)

  /** Everything outside the job's own logic that one job observes. */
  datatype JobEnv = JobEnv(
    files: map<string, FileEntry>,
    encode: seq<byte> -> string,
    decode: string -> Option<seq<byte>>,
    api: Request -> ApiReply,
    uniqueId: string,
    writeOk: bool,
    sizeText: Path -> string,
    elapsed: string)

  /** The record after an ordinary exception. */
  function Failed(base: JobResult, info: ErrorInfo, env: JobEnv): JobResult {
    base.(status := Error, error := Some(info), elapsed := Some(env.elapsed))
  }

  /** How loading the reference images ends. */
  datatype InputsOutcome = InputsLoaded(images: seq<InputImage>) | InputsRaised(kind: string) | InputsExit(path: string)

  /** One reference image: a non-string path is a TypeError, a directory an
      OSError, a missing path exits. */
  function LoadOne(item: Json, env: JobEnv): InputsOutcome {
    if !item.JString? then InputsRaised("TypeError")
    else if item.s !in env.files then InputsExit(item.s)
    else match env.files[item.s]
      case Directory => InputsRaised("OSError")
      case RegularFile(bytes) => InputsLoaded([InputImage(env.encode(bytes), MimeType(FormatOf(bytes)))])
  }

  /** The reference images in order; the first failure decides. */
  function LoadInputs(items: seq<Json>, env: JobEnv): InputsOutcome {
    if items == [] then InputsLoaded([])
    else
      match LoadInputs(items[..|items| - 1], env)
      case InputsLoaded(images) =>
        (match LoadOne(items[|items| - 1], env)
         case InputsLoaded(one) => InputsLoaded(images + one)
         case failure => failure)
      case failure => failure
  }

  /** Loading one more image after a loaded prefix. */
  lemma LoadInputsStep(items: seq<Json>, k: nat, env: JobEnv, images: seq<InputImage>)
    requires k < |items| && LoadInputs(items[..k], env) == InputsLoaded(images)
    ensures LoadInputs(items[..k + 1], env) ==
      match LoadOne(items[k], env)
      case InputsLoaded(one) => InputsLoaded(images + one)
      case failure => failure
  {
    assert items[..k + 1][..k] == items[..k];
  }

  /** A failure among the first images is the outcome of the whole list. */
  lemma {:induction false} LoadInputsFailureStays(items: seq<Json>, k: nat, env: JobEnv)
    requires k <= |items| && !LoadInputs(items[..k], env).InputsLoaded?
    ensures LoadInputs(items, env) == LoadInputs(items[..k], env)
  {
    if k < |items| {
      assert items[..|items| - 1][..k] == items[..k];
      LoadInputsFailureStays(items[..|items| - 1], k, env);
    } else {
      assert items[..k] == items;
    }
  }

  /** The images of the job's inputs: none when the value is falsy. */
  function ImagesFor(inputs: Json, env: JobEnv): InputsOutcome {
    if !Truthy(inputs) then InputsLoaded([])
    else match Iterate(inputs)
      case None => InputsRaised("TypeError")
      case Some(items) => LoadInputs(items, env)
  }

  /** `save_image` as a value: the function view of `SaveImage`. */
  function SaveOutcomeOf(data: Json, output: Path, env: JobEnv): SaveOutcome
    requires ValidUniqueId(env.uniqueId)
  {
    if data.JString? && env.decode(data.s).Some? && env.writeOk
       && SavedPath(output, true, env.uniqueId, FormatOf(env.decode(data.s).value)).Some?
    then Saved(SavedPath(output, true, env.uniqueId, FormatOf(env.decode(data.s).value)).value, env.decode(data.s).value)
    else SaveFailed
  }

  /** The job after the remote reply. */
  function AfterReply(reply: ApiReply, base: JobResult, output: Path, env: JobEnv): (r: JobOutcome)
    requires ValidUniqueId(env.uniqueId)
    ensures r == Aborted(ApiExit) <==> reply == ApiExits
    ensures r.Aborted? ==> r.reason in {ApiExit, ResponseUnreadable, SaveExit}
    ensures r.Finished? && r.result.status == Success ==>
      reply.Reply? && ExtractImageData(reply.response).ImageData? && Truthy(ExtractImageData(reply.response).data)
    ensures reply.ApiRaises? ==> r == Finished(Failed(base, PythonError(reply.kind), env))
    ensures reply.Reply? ==>
      var e := ExtractImageData(reply.response);
      (e == ParseFailure ==> r == Aborted(ResponseUnreadable))
      && (e == NoCandidates ==> r == Finished(Failed(base, Message("No candidates in response"), env)))
      && (e == NoImagePart ==> r == Finished(Failed(base, Message("No image data found in response parts"), env)))
      && (e == AttributeFailure ==> r == Finished(Failed(base, PythonError("AttributeError"), env)))
      && (e.ImageData? && Truthy(e.data) && SaveOutcomeOf(e.data, output, env).SaveFailed? ==> r == Aborted(SaveExit))
      && (e.ImageData? && Truthy(e.data) && SaveOutcomeOf(e.data, output, env).Saved? ==>
            r.Finished? && r.result.status == Success
            && r.result.finalPath == Some(PathString(SaveOutcomeOf(e.data, output, env).path)))
  {
    match reply
    case ApiExits => Aborted(ApiExit)
    case ApiRaises(kind) => Finished(Failed(base, PythonError(kind), env))
    case Reply(response) =>
      match ExtractImageData(response)
      case ParseFailure => Aborted(ResponseUnreadable)
      case NoCandidates => Finished(Failed(base, Message(NoCandidatesMessage), env))
      case NoImagePart => Finished(Failed(base, Message(NoImagePartMessage), env))
      case AttributeFailure => Finished(Failed(base, PythonError("AttributeError"), env))
      case ImageData(data) =>
        if !Truthy(data) then Finished(base.(status := Error, error := Some(Message(NoImageDataMessage))))
        else match SaveOutcomeOf(data, output, env)
          case SaveFailed => Aborted(SaveExit)
          case Saved(path, _) =>
            Finished(base.(status := Success, finalPath := Some(PathString(path)),
                           size := Some(env.sizeText(path)), elapsed := Some(env.elapsed)))
  }

  /** The prompt and output of a well-formed job. */
  function JobFields(job: Json): (r: Option<(string, string)>)
    ensures r.Some? <==>
      job.JObject? && Lookup(job.members, "prompt").Some? && Lookup(job.members, "prompt").value.JString?
      && Lookup(job.members, "output").Some? && Lookup(job.members, "output").value.JString?
    ensures !job.JObject? ==> r.None?
    ensures job.JObject? && (Lookup(job.members, "prompt").None? || Lookup(job.members, "output").None?) ==> r.None?
    ensures r.Some? ==>
      job.JObject? && Lookup(job.members, "prompt") == Some(JString(r.value.0))
      && Lookup(job.members, "output") == Some(JString(r.value.1))
  {
    if !job.JObject? then None
    else match (Lookup(job.members, "prompt"), Lookup(job.members, "output"))
      case (Some(JString(prompt)), Some(JString(output))) => Some((prompt, output))
      case _ => None
  }

  /** `generate_single` as a value. */
  function JobOutcomeOf(job: Json, presetContent: string, imageSize: string, env: JobEnv): (r: JobOutcome)
    requires ValidUniqueId(env.uniqueId)
    ensures r == Aborted(MalformedJob) <==> JobFields(job).None?
    ensures JobFields(job).Some? && ImagesFor(NormalizeInputs(job.members), env).InputsRaised? ==>
      r.Finished? && r.result.status == Error
      && r.result.error == Some(PythonError(ImagesFor(NormalizeInputs(job.members), env).kind))
  {
    match JobFields(job)
    case None => Aborted(MalformedJob)
    case Some((prompt, output)) =>
      var outputPath := ParsePath(output);
      var base := JobResult(prompt, PathString(outputPath), Pending, None, None, None, None);
      match ImagesFor(NormalizeInputs(job.members), env)
      case InputsExit(path) => Aborted(InputImageMissing(path))
      case InputsRaised(kind) => Finished(Failed(base, PythonError(kind), env))
      case InputsLoaded(images) =>
        var request := Request(BuildPromptWithPresets(presetContent, prompt), imageSize, images);
        AfterReply(env.api(request), base, outputPath, env)
  }

  /** The reference-image loop of `generate_single`: nothing for a falsy
      value, otherwise each path in turn. */
  method LoadReferenceImages(inputPaths: Json, env: JobEnv) returns (r: InputsOutcome)
    ensures r == ImagesFor(inputPaths, env)
  {
    var inputImages: seq<InputImage> := [];
    if !Truthy(inputPaths) {
      return InputsLoaded([]);
    }
    var items := Iterate(inputPaths);
    if items.None? {
      return InputsRaised("TypeError");
    }
    var paths := items.value;
    for k := 0 to |paths|
      invariant LoadInputs(paths[..k], env) == InputsLoaded(inputImages)
    {
      LoadInputsStep(paths, k, env, inputImages);
      var item := paths[k];
      if !item.JString? {
        LoadInputsFailureStays(paths, k + 1, env);
        return InputsRaised("TypeError");
      }
      var loaded := LoadInputImage(env.files, item.s, env.encode);
      match loaded
      case InputMissing =>
        LoadInputsFailureStays(paths, k + 1, env);
        return InputsExit(item.s);
      case ReadFailed =>
        LoadInputsFailureStays(paths, k + 1, env);
        return InputsRaised("OSError");
      case Loaded(image) =>
        inputImages := inputImages + [image];
    }
    assert paths[..|paths|] == paths;
    return InputsLoaded(inputImages);
  }

  /** The part of `generate_single` after the request is sent: extraction,
      the empty-data check, saving, and the success fields. */
  method FinishJob(reply: ApiReply, result: JobResult, outputPath: Path, env: JobEnv)
    returns (outcome: JobOutcome)
    requires ValidUniqueId(env.uniqueId)
    ensures outcome == AfterReply(reply, result, outputPath, env)
  {
    if reply.ApiExits? {
      return Aborted(ApiExit);
    }
    if reply.ApiRaises? {
      return Finished(Failed(result, PythonError(reply.kind), env));
    }
    var extraction := ExtractImageData(reply.response);
    match extraction
    case ParseFailure =>
      return Aborted(ResponseUnreadable);
    case NoCandidates =>
      return Finished(Failed(result, Message(NoCandidatesMessage), env));
    case NoImagePart =>
      return Finished(Failed(result, Message(NoImagePartMessage), env));
    case AttributeFailure =>
      return Finished(Failed(result, PythonError("AttributeError"), env));
    case ImageData(imageData) =>
      var r := result;
      if !Truthy(imageData) {
        r := r.(status := Error);
        r := r.(error := Some(Message(NoImageDataMessage)));
        return Finished(r);
      }
      var saved := SaveImage(imageData, outputPath, true, env.uniqueId, env.decode, env.writeOk);
      if saved.SaveFailed? {
        return Aborted(SaveExit);
      }
      r := r.(status := Success);
      r := r.(finalPath := Some(PathString(saved.path)));
      r := r.(size := Some(env.sizeText(saved.path)));
      r := r.(elapsed := Some(env.elapsed));
      return Finished(r);
  }

  /** `generate_single`: the record starts pending and is then completed; the
      method computes `JobOutcomeOf`. */
  method GenerateSingle(job: Json, presetContent: string, imageSize: string, env: JobEnv)
    returns (outcome: JobOutcome)
    requires ValidUniqueId(env.uniqueId)
    ensures outcome == JobOutcomeOf(job, presetContent, imageSize, env)
  {
    var fields := JobFields(job);
    if fields.None? {
      return Aborted(MalformedJob);
    }
    var (prompt, output) := fields.value;
    var outputPath := ParsePath(output);
    var inputPaths := NormalizeInputs(job.members);
    var result := JobResult(prompt, PathString(outputPath), Pending, None, None, None, None);

    var images := LoadReferenceImages(inputPaths, env);
    match images
    case InputsExit(path) =>
      return Aborted(InputImageMissing(path));
    case InputsRaised(kind) =>
      return Finished(Failed(result, PythonError(kind), env));
    case InputsLoaded(inputImages) =>
      var fullPrompt := BuildPromptWithPresets(presetContent, prompt);
      var body := BuildRequestBody(fullPrompt, imageSize, inputImages);
      var reply := env.api(ReadRequest(body).value);
      outcome := FinishJob(reply, result, outputPath, env);
  }

  /** A job that completes reports its own prompt and output path, leaves the
      pending state, and has a final path and size exactly when it succeeded
      and an error exactly when it failed. */
  lemma JobLifecycle(job: Json, presetContent: string, imageSize: string, env: JobEnv)
    requires ValidUniqueId(env.uniqueId)
    ensures var o := JobOutcomeOf(job, presetContent, imageSize, env);
      o.Finished? ==>
        JobFields(job).Some?
        && o.result.prompt == JobFields(job).value.0
        && o.result.output == JobFields(job).value.1
        && o.result.status != Pending
        && (o.result.status == Success <==> o.result.finalPath.Some?)
        && (o.result.status == Success <==> o.result.size.Some?)
        && (o.result.status == Error <==> o.result.error.Some?)
  {
    if JobFields(job).Some? {
      var (prompt, output) := JobFields(job).value;
      ParsePrintRoundTrip(output);
      var base := JobResult(prompt, PathString(ParsePath(output)), Pending, None, None, None, None);
      match ImagesFor(NormalizeInputs(job.members), env)
      case InputsExit(_) =>
      case InputsRaised(_) =>
      case InputsLoaded(images) =>
        var request := Request(BuildPromptWithPresets(presetContent, prompt), imageSize, images);
        ReplyLifecycle(env.api(request), base, ParsePath(output), env);
    }
  }

  /** The part of the lifecycle decided by the remote reply: a pending record
      with nothing filled in comes out with a status and exactly the fields
      that status calls for. */
  lemma ReplyLifecycle(reply: ApiReply, base: JobResult, output: Path, env: JobEnv)
    requires ValidUniqueId(env.uniqueId)
    requires base.status == Pending && base.finalPath.None? && base.size.None? && base.error.None?
    ensures var o := AfterReply(reply, base, output, env);
      o.Finished? ==>
        o.result.prompt == base.prompt && o.result.output == base.output
        && o.result.status != Pending
        && (o.result.status == Success <==> o.result.finalPath.Some?)
        && (o.result.status == Success <==> o.result.size.Some?)
        && (o.result.status == Error <==> o.result.error.Some?)
  {
  }

  /** A reference image that does not exist aborts result collection rather than
      producing an error record for the job. */
  lemma MissingInputEndsBatch(job: Json, presetContent: string, imageSize: string, env: JobEnv, path: string)
    requires ValidUniqueId(env.uniqueId) && JobFields(job).Some?
    requires Lookup(job.members, "input") == Some(JString(path)) && path !in env.files
    ensures JobOutcomeOf(job, presetContent, imageSize, env) == Aborted(InputImageMissing(path))
  {
    SingleInputIsList(job.members, path);
    assert [JString(path)][..0] == [];
    assert LoadInputs([JString(path)], env) == InputsExit(path);
    assert ImagesFor(NormalizeInputs(job.members), env) == InputsExit(path);
  }

  /** A reference path that names a directory is an OSError inside the `try`:
      the job gets an error record and the batch goes on. */
  lemma DirectoryInputIsError(job: Json, presetContent: string, imageSize: string, env: JobEnv, path: string)
    requires ValidUniqueId(env.uniqueId) && JobFields(job).Some?
    requires Lookup(job.members, "input") == Some(JString(path)) && path in env.files && env.files[path].Directory?
    ensures var o := JobOutcomeOf(job, presetContent, imageSize, env);
      o.Finished? && o.result.status == Error && o.result.error == Some(PythonError("OSError"))
  {
    SingleInputIsList(job.members, path);
    assert [JString(path)][..0] == [];
    assert LoadInputs([JString(path)], env) == InputsRaised("OSError");
  }

  /** A reference list whose first entry is not a string is a TypeError inside
      the `try`: the job gets an error record whatever the later entries are. */
  lemma NonStringInputIsError(job: Json, presetContent: string, imageSize: string, env: JobEnv, items: seq<Json>)
    requires ValidUniqueId(env.uniqueId) && JobFields(job).Some?
    requires Lookup(job.members, "input") == Some(JArray(items)) && items != [] && !items[0].JString?
    ensures var o := JobOutcomeOf(job, presetContent, imageSize, env);
      o.Finished? && o.result.status == Error && o.result.error == Some(PythonError("TypeError"))
  {
    assert items[..1][..0] == [];
    assert LoadInputs(items[..1], env) == InputsRaised("TypeError");
    LoadInputsFailureStays(items, 1, env);
  }

  /** Extracted image data that is empty gives an error record with the
      message "No image data received from API" and no final path, size or
      elapsed time: nothing is saved. */
  lemma EmptyImageDataIsError(job: Json, presetContent: string, imageSize: string, env: JobEnv,
                              images: seq<InputImage>, response: Json, data: Json)
    requires ValidUniqueId(env.uniqueId) && JobFields(job).Some?
    requires ImagesFor(NormalizeInputs(job.members), env) == InputsLoaded(images)
    requires env.api(Request(BuildPromptWithPresets(presetContent, JobFields(job).value.0), imageSize, images))
      == Reply(response)
    requires ExtractImageData(response) == ImageData(data) && !Truthy(data)
    ensures var o := JobOutcomeOf(job, presetContent, imageSize, env);
      o.Finished? && o.result.status == Error && o.result.error == Some(Message(NoImageDataMessage))
      && o.result.finalPath.None? && o.result.size.None? && o.result.elapsed.None?
  {
  }

  // ------------------------------------------------------------ the batch

  /** The preset text every job of a batch receives: "" for a falsy preset,
      the blocks of the named presets joined by blank lines for a preset
      string whose names all load; `None` when a name is missing or the
      preset is not a string. */
  function PresetTextFor(preset: Option<Json>, dirs: seq<Location>): Option<string> {
    match preset
    case None => Some("")
    case Some(p) =>
      if !Truthy(p) then Some("")
      else if !p.JString? then None
      else match PresetBlocks(PresetNames(p.s), n => LoadPreset(n, dirs))
        case None => None
        case Some(blocks) => Some(Join(blocks, "\n\n"))
  }

  /** `[0, 1, ..., n - 1]`. */
  function Range(n: nat): (r: seq<nat>)
    ensures |r| == n && forall i :: 0 <= i < n ==> r[i] == i
  {
    if n == 0 then [] else Range(n - 1) + [n - 1]
  }

  /** An order in which the `n` jobs of a batch complete: each index once. */
  predicate IsPermutation(order: seq<nat>, n: nat) {
    multiset(order) == multiset(Range(n))
  }

  lemma PermutationBounds(order: seq<nat>, n: nat)
    requires IsPermutation(order, n)
    ensures |order| == n && forall k :: 0 <= k < |order| ==> order[k] < n
  {
    assert |multiset(order)| == |multiset(Range(n))|;
    forall k | 0 <= k < |order| ensures order[k] < n {
      assert order[k] in multiset(order);
      assert order[k] in Range(n);
    }
  }

  /** `xs` visited in the order `order`. */
  function Permute<T>(xs: seq<T>, order: seq<nat>): (r: seq<T>)
    requires IsPermutation(order, |xs|)
    ensures |r| == |xs|
  {
    PermutationBounds(order, |xs|);
    seq(|order|, k requires 0 <= k < |order| => xs[order[k]])
  }

  /** Every job's outcome, in job order, all with the same preset text. */
  function JobOutcomes(jobs: seq<Json>, presetContent: string, imageSize: string, envs: seq<JobEnv>): (r: seq<JobOutcome>)
    requires |envs| == |jobs| && forall i :: 0 <= i < |envs| ==> ValidUniqueId(envs[i].uniqueId)
    ensures |r| == |jobs|
    ensures forall i :: 0 <= i < |jobs| ==> r[i] == JobOutcomeOf(jobs[i], presetContent, imageSize, envs[i])
  {
    seq(|jobs|, i requires 0 <= i < |jobs| => JobOutcomeOf(jobs[i], presetContent, imageSize, envs[i]))
  }

  /** Collecting outcomes as they complete: every result, or the first job
      that aborts collection with the results collected before it. */
  datatype Collected = AllDone(results: seq<JobResult>) | Stopped(reason: AbortReason, done: seq<JobResult>)

  function Collect(outcomes: seq<JobOutcome>): (r: Collected)
    ensures r.AllDone? ==> |r.results| == |outcomes|
    ensures r.Stopped? ==> |r.done| < |outcomes|
  {
    if outcomes == [] then AllDone([])
    else
      match Collect(outcomes[..|outcomes| - 1])
      case AllDone(results) =>
        (match outcomes[|outcomes| - 1]
         case Finished(result) => AllDone(results + [result])
         case Aborted(reason) => Stopped(reason, results))
      case stopped => stopped
  }

  /** Collection is aborted exactly when some job exits; otherwise there is
      one result per job, in completion order. */
  lemma {:induction false} CollectSpec(outcomes: seq<JobOutcome>)
    ensures Collect(outcomes).Stopped? <==> exists k :: 0 <= k < |outcomes| && outcomes[k].Aborted?
    ensures Collect(outcomes).AllDone? ==>
      |Collect(outcomes).results| == |outcomes|
      && forall k :: 0 <= k < |outcomes| ==> Collect(outcomes).results[k] == outcomes[k].result
    ensures Collect(outcomes).Stopped? ==>
      exists k :: 0 <= k < |outcomes| && outcomes[k].Aborted? && Collect(outcomes).reason == outcomes[k].reason
        && (forall j :: 0 <= j < k ==> outcomes[j].Finished?)
        && Collect(outcomes[..k]).AllDone? && Collect(outcomes).done == Collect(outcomes[..k]).results
  {
    if outcomes != [] {
      var m := |outcomes| - 1;
      var init := outcomes[..m];
      CollectSpec(init);
      assert forall k :: 0 <= k < m ==> init[k] == outcomes[k];
      match Collect(init)
      case Stopped(reason, done) =>
        var k :| 0 <= k < m && init[k].Aborted? && reason == init[k].reason
          && (forall j :: 0 <= j < k ==> init[j].Finished?)
          && Collect(init[..k]).AllDone? && done == Collect(init[..k]).results;
        CollectSpecStopped(outcomes, k);
      case AllDone(results) =>
        assert forall k :: 0 <= k < m ==> outcomes[k].Finished?;
        if outcomes[m].Aborted? {
          assert Collect(outcomes) == Stopped(outcomes[m].reason, results);
          assert outcomes[..m] == init;
        } else {
          assert Collect(outcomes) == AllDone(results + [outcomes[m].result]);
        }
    }
  }

  /** The step of `CollectSpec` where collection had already stopped at outcome
      `k` before the last outcome. */
  lemma CollectSpecStopped(outcomes: seq<JobOutcome>, k: nat)
    requires k < |outcomes| - 1 && Collect(outcomes[..|outcomes| - 1]).Stopped?
    requires outcomes[k].Aborted? && Collect(outcomes[..|outcomes| - 1]).reason == outcomes[k].reason
    requires forall j :: 0 <= j < k ==> outcomes[j].Finished?
    requires Collect(outcomes[..|outcomes| - 1][..k]).AllDone?
    requires Collect(outcomes[..|outcomes| - 1]).done == Collect(outcomes[..|outcomes| - 1][..k]).results
    ensures Collect(outcomes) == Collect(outcomes[..|outcomes| - 1])
    ensures Collect(outcomes[..k]).AllDone? && Collect(outcomes).done == Collect(outcomes[..k]).results
  {
    assert outcomes[..|outcomes| - 1][..k] == outcomes[..k];
  }

  /** Collecting one more outcome after a prefix that was all collected. */
  lemma CollectStep(outcomes: seq<JobOutcome>, k: nat, results: seq<JobResult>)
    requires k < |outcomes| && Collect(outcomes[..k]) == AllDone(results)
    ensures Collect(outcomes[..k + 1]) ==
      match outcomes[k]
      case Finished(result) => AllDone(results + [result])
      case Aborted(reason) => Stopped(reason, results)
  {
    assert outcomes[..k + 1][..k] == outcomes[..k];
  }

  /** A failure of the collected stage is kept by every longer prefix. */
  lemma {:induction false} CollectStoppedStays(outcomes: seq<JobOutcome>, k: nat)
    requires k <= |outcomes| && Collect(outcomes[..k]).Stopped?
    ensures Collect(outcomes) == Collect(outcomes[..k])
  {
    if k < |outcomes| {
      assert outcomes[..|outcomes| - 1][..k] == outcomes[..k];
      CollectStoppedStays(outcomes[..|outcomes| - 1], k);
    } else {
      assert outcomes[..k] == outcomes;
    }
  }

  /** The number of successful results. */
  function Successes(results: seq<JobResult>): (r: nat)
    ensures r <= |results|
  {
    if results == [] then 0
    else Successes(results[..|results| - 1]) + (if results[|results| - 1].status == Success then 1 else 0)
  }

  /** At most one success per result, and all of them exactly when every status is success. */
  lemma {:induction false} SuccessesBound(results: seq<JobResult>)
    ensures Successes(results) <= |results|
    ensures Successes(results) == |results| <==> forall k :: 0 <= k < |results| ==> results[k].status == Success
  {
    if results != [] {
      var m := |results| - 1;
      SuccessesBound(results[..m]);
      assert forall k :: 0 <= k < m ==> results[..m][k] == results[k];
    }
  }

  lemma {:induction false} SuccessesSplit(a: seq<JobResult>, b: seq<JobResult>)
    ensures Successes(a + b) == Successes(a) + Successes(b)
  {
    if b != [] {
      var m := |b| - 1;
      SuccessesSplit(a, b[..m]);
      assert (a + b)[..|a + b| - 1] == a + b[..m];
    } else {
      assert a + b == a;
    }
  }

  /** Taking the last index out of a completion order leaves a completion
      order of the other jobs. */
  lemma WithoutLast(order: seq<nat>, m: nat, j: nat)
    requires IsPermutation(order, m + 1) && j < |order| && order[j] == m
    ensures IsPermutation(order[..j] + order[j + 1..], m)
  {
    var rest := order[..j] + order[j + 1..];
    assert order == order[..j] + [m] + order[j + 1..];
    assert Range(m + 1) == Range(m) + [m];
    assert multiset(order) == multiset(order[..j]) + multiset{m} + multiset(order[j + 1..]);
    assert multiset(rest) == multiset(order[..j]) + multiset(order[j + 1..]);
    assert multiset(rest) == multiset(order) - multiset{m};
    assert multiset(Range(m + 1)) == multiset(Range(m)) + multiset{m};
    assert multiset(Range(m)) == multiset(Range(m + 1)) - multiset{m};
  }

  /** Visiting in `order` is visiting the other items in the shorter order and
      the last item at position `j`. */
  lemma PermuteLast<T>(xs: seq<T>, order: seq<nat>, j: nat)
    requires xs != [] && IsPermutation(order, |xs|) && j < |order| && order[j] == |xs| - 1
    requires IsPermutation(order[..j] + order[j + 1..], |xs| - 1)
    ensures var q := Permute(xs[..|xs| - 1], order[..j] + order[j + 1..]);
      j <= |q| && Permute(xs, order) == q[..j] + [xs[|xs| - 1]] + q[j..]
  {
    var rest := order[..j] + order[j + 1..];
    PermutationBounds(order, |xs|);
    PermutationBounds(rest, |xs| - 1);
    var p := Permute(xs, order);
    var q := Permute(xs[..|xs| - 1], rest);
    forall k | 0 <= k < |p| ensures p[k] == (q[..j] + [xs[|xs| - 1]] + q[j..])[k] {
      if k < j {
        assert rest[k] == order[k];
      } else if k > j {
        assert rest[k - 1] == order[k];
      }
    }
  }

  /** A result inserted anywhere adds its own success to the count. */
  lemma SuccessesAround(q: seq<JobResult>, x: JobResult, j: nat)
    requires j <= |q|
    ensures Successes(q[..j] + [x] + q[j..]) == Successes(q) + (if x.status == Success then 1 else 0)
  {
    var a, b := q[..j], q[j..];
    assert Successes(a + b) == Successes(q) by { TakeDrop(q, j); }
    assert Successes(a + [x] + b) == Successes(a + [x]) + Successes(b) by { SuccessesSplit(a + [x], b); }
    assert Successes(a + [x]) == Successes(a) + (if x.status == Success then 1 else 0) by { SuccessesSnoc(a, x); }
    SuccessesSplit(a, b);
  }

  lemma TakeDrop(q: seq<JobResult>, j: nat)
    requires j <= |q|
    ensures q[..j] + q[j..] == q
  {
  }

  /** One more result adds its own success to the count. */
  lemma SuccessesSnoc(a: seq<JobResult>, x: JobResult)
    ensures Successes(a + [x]) == Successes(a) + (if x.status == Success then 1 else 0)
  {
    assert (a + [x])[..|a|] == a;
  }

  /** The position of the last job in a completion order. */
  lemma PositionOfLast(order: seq<nat>, m: nat) returns (j: nat)
    requires IsPermutation(order, m + 1)
    ensures j < |order| && order[j] == m
  {
    assert Range(m + 1)[m] == m;
    assert m in multiset(order);
    j :| 0 <= j < |order| && order[j] == m;
  }

  /** Counting successes does not depend on the order the results arrive in. */
  lemma {:induction false} SuccessesPermuted(results: seq<JobResult>, order: seq<nat>)
    requires IsPermutation(order, |results|)
    ensures Successes(Permute(results, order)) == Successes(results)
    decreases |results|
  {
    if results != [] {
      var m := |results| - 1;
      var j := PositionOfLast(order, m);
      var rest := order[..j] + order[j + 1..];
      WithoutLast(order, m, j);
      SuccessesPermuted(results[..m], rest);
      PermuteLast(results, order, j);
      SuccessesAround(Permute(results[..m], rest), results[m], j);
    }
  }

  /** The results of outcomes that all completed. */
  function Results(outcomes: seq<JobOutcome>): (r: seq<JobResult>)
    requires forall k :: 0 <= k < |outcomes| ==> outcomes[k].Finished?
    ensures |r| == |outcomes|
  {
    seq(|outcomes|, k requires 0 <= k < |outcomes| => outcomes[k].result)
  }

  /** When no job exits, the success count is the same whatever order
      the jobs complete in, and so is the failure count. */
  lemma CountsIndependentOfOrder(outcomes: seq<JobOutcome>, order1: seq<nat>, order2: seq<nat>)
    requires IsPermutation(order1, |outcomes|) && IsPermutation(order2, |outcomes|)
    requires forall k :: 0 <= k < |outcomes| ==> outcomes[k].Finished?
    ensures Collect(Permute(outcomes, order1)).AllDone? && Collect(Permute(outcomes, order2)).AllDone?
    ensures Successes(Collect(Permute(outcomes, order1)).results)
         == Successes(Collect(Permute(outcomes, order2)).results)
  {
    PermutationBounds(order1, |outcomes|);
    PermutationBounds(order2, |outcomes|);
    var rs := Results(outcomes);
    CollectSpec(Permute(outcomes, order1));
    CollectSpec(Permute(outcomes, order2));
    assert Collect(Permute(outcomes, order1)).results == Permute(rs, order1);
    assert Collect(Permute(outcomes, order2)).results == Permute(rs, order2);
    SuccessesPermuted(rs, order1);
    SuccessesPermuted(rs, order2);
  }

  /** Some job that exits aborts collection whatever the completion order. */
  lemma AbortInAnyOrder(outcomes: seq<JobOutcome>, order: seq<nat>, i: nat)
    requires IsPermutation(order, |outcomes|)
    requires i < |outcomes| && outcomes[i].Aborted?
    ensures Collect(Permute(outcomes, order)).Stopped?
  {
    PermutationBounds(order, |outcomes|);
    assert Range(|outcomes|)[i] == i;
    assert i in multiset(order);
    var k :| 0 <= k < |order| && order[k] == i;
    CollectSpec(Permute(outcomes, order));
    assert Permute(outcomes, order)[k].Aborted?;
  }

  /** How `run_batch` ends. */
  datatype BatchOutcome =
    | PresetMissing(name: string)        // `load_presets` exits
    | PresetNotText                      // a preset that is not a string: `.split` raises
    | BatchAborted(reason: AbortReason, done: seq<JobResult>)
    | BatchDone(results: seq<JobResult>, successful: nat, failed: int)

  /** How loading the batch's presets ends. */
  datatype PresetSetup = PresetContent(text: string) | SetupMissing(name: string) | SetupNotText

  /** The preset step of `run_batch`: "" for a falsy preset, otherwise
      `load_presets` on it. */
  method LoadBatchPresets(preset: Option<Json>, dirs: seq<Location>) returns (r: PresetSetup)
    ensures r.SetupNotText? <==> preset.Some? && Truthy(preset.value) && !preset.value.JString?
    ensures r.SetupMissing? ==>
      preset.Some? && preset.value.JString? && r.name in PresetNames(preset.value.s) && LoadPreset(r.name, dirs).None?
    ensures r.PresetContent? <==> PresetTextFor(preset, dirs).Some?
    ensures r.PresetContent? ==> PresetTextFor(preset, dirs) == Some(r.text)
  {
    if preset.None? || !Truthy(preset.value) {
      return PresetContent("");
    }
    if !preset.value.JString? {
      return SetupNotText;
    }
    var loaded := LoadPresets(preset.value.s, dirs);
    match loaded
    case PresetNotFound(name) =>
      ghost var names := PresetNames(preset.value.s);
      ghost var i :| 0 <= i < |names| && names[i] == name
        && PresetBlocks(names[..i], n => LoadPreset(n, dirs)).Some?;
      FirstMissingPreset(names, i, n => LoadPreset(n, dirs));
      return SetupMissing(name);
    case PresetText(text) =>
      return PresetContent(text);
  }

  /** The executor loop of `run_batch`: every job runs with the same preset
      text and results are appended as jobs complete, in the order `order`. */
  method RunJobs(jobs: seq<Json>, presetContent: string, imageSize: string, envs: seq<JobEnv>, order: seq<nat>)
    returns (c: Collected)
    requires |envs| == |jobs| && forall i :: 0 <= i < |envs| ==> ValidUniqueId(envs[i].uniqueId)
    requires IsPermutation(order, |jobs|)
    ensures c == Collect(Permute(JobOutcomes(jobs, presetContent, imageSize, envs), order))
  {
    PermutationBounds(order, |jobs|);
    ghost var outcomes := Permute(JobOutcomes(jobs, presetContent, imageSize, envs), order);
    var results: seq<JobResult> := [];
    for k := 0 to |order|
      invariant Collect(outcomes[..k]) == AllDone(results)
    {
      var outcome := GenerateSingle(jobs[order[k]], presetContent, imageSize, envs[order[k]]);
      assert outcomes[k] == outcome;
      CollectStep(outcomes, k, results);
      if outcome.Aborted? {
        CollectStoppedStays(outcomes, k + 1);
        return Stopped(outcome.reason, results);
      }
      results := results + [outcome.result];
    }
    assert outcomes[..|order|] == outcomes;
    return AllDone(results);
  }

  /** `run_batch`: the presets are loaded once, every job is given the same
      preset text, results are gathered in completion order `order`, and the
      summary counts the successes. */
  method RunBatch(jobs: seq<Json>, preset: Option<Json>, imageSize: string, dirs: seq<Location>,
                  envs: seq<JobEnv>, order: seq<nat>)
    returns (r: BatchOutcome)
    requires |envs| == |jobs| && forall i :: 0 <= i < |envs| ==> ValidUniqueId(envs[i].uniqueId)
    requires IsPermutation(order, |jobs|)
    ensures r.PresetNotText? <==> preset.Some? && Truthy(preset.value) && !preset.value.JString?
    ensures r.PresetMissing? ==>
      preset.Some? && preset.value.JString? && r.name in PresetNames(preset.value.s) && LoadPreset(r.name, dirs).None?
    ensures PresetTextFor(preset, dirs).None? <==> r.PresetMissing? || r.PresetNotText?
    ensures PresetTextFor(preset, dirs).Some? ==>
      r == Summary(Collect(Permute(JobOutcomes(jobs, PresetTextFor(preset, dirs).value, imageSize, envs), order)), |jobs|)
  {
    var setup := LoadBatchPresets(preset, dirs);
    match setup
    case SetupNotText =>
      return PresetNotText;
    case SetupMissing(name) =>
      return PresetMissing(name);
    case PresetContent(presetContent) =>
      var collected := RunJobs(jobs, presetContent, imageSize, envs, order);
      match collected
      case Stopped(reason, done) =>
        return BatchAborted(reason, done);
      case AllDone(results) =>
        var successful := Successes(results);
        return BatchDone(results, successful, |jobs| - successful);
  }

  /** What `run_batch` reports once the jobs of `n` have been collected: the
      results with their success and failure counts, or the reason the batch
      stopped together with the results appended before it. */
  function Summary(c: Collected, n: nat): (r: BatchOutcome)
    ensures r.BatchDone? <==> c.AllDone?
    ensures r.BatchDone? ==> r.results == c.results && r.successful + r.failed == n
    ensures r.BatchDone? ==> r.successful == Successes(c.results) && r.failed == n - Successes(c.results)
    ensures r.BatchAborted? ==> r.reason == c.reason && r.done == c.done
  {
    match c
    case AllDone(results) => BatchDone(results, Successes(results), n - Successes(results))
    case Stopped(reason, done) => BatchAborted(reason, done)
  }

  /** The exit status `main` ends with: 1 when the batch did not finish or
      some result is not a success. */
  function ExitStatus(r: BatchOutcome): (status: int)
    ensures status == 0 || status == 1
    ensures status == 0 <==> r.BatchDone? && forall k :: 0 <= k < |r.results| ==> r.results[k].status == Success
  {
    match r
    case BatchDone(results, _, _) =>
      if exists k :: 0 <= k < |results| && results[k].status != Success then 1 else 0
    case _ => 1
  }

  /** A finished batch exits with 1 exactly when its failure count is positive. */
  lemma ExitStatusMatchesCount(results: seq<JobResult>)
    ensures ExitStatus(BatchDone(results, Successes(results), |results| - Successes(results))) == 1
        <==> |results| - Successes(results) > 0
    ensures |results| - Successes(results) >= 0
  {
    SuccessesBound(results);
    ExitStatusOfCounts(results, Successes(results));
  }

  /** The exit status of a finished batch from any success count that is
      bounded by the results and full exactly when all succeeded. */
  lemma ExitStatusOfCounts(results: seq<JobResult>, successful: nat)
    requires successful <= |results|
    requires successful == |results| <==> forall k :: 0 <= k < |results| ==> results[k].status == Success
    ensures ExitStatus(BatchDone(results, successful, |results| - successful)) == 1 <==> |results| - successful > 0
  {
  }
}
