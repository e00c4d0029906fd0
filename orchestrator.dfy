/** `get_files` and `upload_files` (main.py:35-37, main.py:124-149): check the
    directory, list its regular files, and when there are any authenticate,
    create one timestamped Drive folder and upload each file in turn, counting
    the successes. Everything the run meets outside the script is an input in
    `Environment`; what it asks of the outside world is returned as a list of
    calls, in order. */
module Orchestrator {
  import opened Types
  import opened FileNames
  import opened DriveFolder
  import opened Retry
  import opened Credentials

  /** One entry of the recursive walk of the directory: its path and whether it is a regular file. */
  datatype Entry = Entry(path: string, isFile: bool)

  /** What one run meets. */
  datatype Environment = Environment(
    isDirectory: bool,     // the path exists and is a directory (main.py:126)
    walk: seq<Entry>,      // the entries of the recursive walk, in order (main.py:37)
    dirName: string,       // the directory's own name (main.py:137)
    tokenFile: TokenFile,  // the inputs of get_credentials (main.py:40-75)
    refresh: Refresh,
    secretsExist: bool,
    flow: Flow,
    stamp: string,         // the local time, as day-month-year_hour-minute-second (main.py:85)
    folderCreated: bool,   // whether the folder request returned (main.py:95)
    uploads: nat -> Script // the backend's answers for the i-th file's attempts
  )

  /** The requests a run makes, in order. */
  datatype Call =
    | Authenticate                             // authenticate_google() (main.py:135)
    | CreateFolder(name: string)               // create_drive_folder (main.py:138)
    | UploadCall(file: string, attempts: nat)  // one upload_file call (main.py:142)

  /** How upload_files ends. The two early exits return normally. */
  datatype RunResult =
    | NotADirectory                                     // main.py:126-128
    | NothingToUpload                                   // main.py:131-133
    | Completed(total: nat, succeeded: nat, failed: nat) // main.py:145-149
    | Aborted(error: Failure)                           // an exception propagates

  datatype Trace = Trace(result: RunResult, calls: seq<Call>)

  /** The paths of the entries that are regular files, in walk order (main.py:35-37). */
  function GetFiles(walk: seq<Entry>): (files: seq<string>)
    ensures |files| <= |walk|
    ensures forall p :: p in files <==> exists i :: 0 <= i < |walk| && walk[i].isFile && walk[i].path == p
  {
    if walk == [] then []
    else
      var rest := GetFiles(walk[1..]);
      assert forall i :: 1 <= i < |walk| ==> walk[i] == walk[1..][i - 1];
      if walk[0].isFile then [walk[0].path] + rest else rest
  }

  /** A single entry contributes its path exactly when it is a regular file. */
  lemma GetFilesEntry(e: Entry)
    ensures GetFiles([e]) == if e.isFile then [e.path] else []
  {
  }

  /** The listing of a walk is the listing of its first part followed by that of
      the rest: files come out once per regular-file entry, in walk order. */
  lemma {:induction false} GetFilesConcat(a: seq<Entry>, b: seq<Entry>)
    ensures GetFiles(a + b) == GetFiles(a) + GetFiles(b)
  {
    if a == [] {
      assert a + b == b;
    } else {
      assert (a + b)[1..] == a[1..] + b;
      GetFilesConcat(a[1..], b);
    }
  }

  /** The state of the loop of main.py:141-143 after some files: the success
      count, the upload calls made, and the exception that stopped it, if any. */
  datatype Progress = Progress(succeeded: nat, calls: seq<Call>, error: Option<Failure>)

  /** How each upload_file call ends, by the index of its file. */
  type Runs = nat -> UploadRun

  /** The upload_file calls the backend's answers give. */
  function Results(uploads: nat -> Script): Runs {
    (i: nat) => Upload(uploads(i))
  }

  /** The loop of main.py:141-143 over the first n files, given how each
      upload_file call ends. */
  function UploadLoop(files: seq<string>, runs: Runs, n: nat): (p: Progress)
    requires n <= |files|
    ensures p.succeeded <= |p.calls| <= n
  {
    if n == 0 then Progress(0, [], None)
    else
      var p := UploadLoop(files, runs, n - 1);
      if p.error.Some? then p
      else
        var u := runs(n - 1);
        Progress(
          p.succeeded + (if u.outcome == Returned(true) then 1 else 0),
          p.calls + [UploadCall(files[n - 1], u.attempts)],
          if u.outcome.Raised? then Some(u.outcome.error) else None)
  }

  /** The requests made before the first upload: authentication and the one
      folder creation (main.py:135-138). */
  function Header(env: Environment, name: Option<string>): (h: seq<Call>)
    ensures |h| == 2 && h[0] == Authenticate && h[1].CreateFolder?
    ensures IsClean(h[1].name)
    ensures |h[1].name| == |BaseName(name, env.dirName)| + 1 + |env.stamp|
    ensures h[1].name[|BaseName(name, env.dirName)|] == '_'
  {
    [Authenticate, CreateFolder(FolderName(BaseName(name, env.dirName), env.stamp))]
  }

  /** main.py:140-149, once the folder exists. */
  function UploadPhase(files: seq<string>, runs: Runs, header: seq<Call>): (t: Trace)
    ensures t.result.Completed? || t.result.Aborted?
    ensures |header| <= |t.calls| <= |header| + |files|
    ensures t.calls[..|header|] == header
    ensures t.result.Completed? ==>
      t.result.total == |files| && t.result.succeeded + t.result.failed == t.result.total
  {
    var p := UploadLoop(files, runs, |files|);
    if p.error.Some? then Trace(Aborted(p.error.value), header + p.calls)
    else Trace(Completed(|files|, p.succeeded, |files| - p.succeeded), header + p.calls)
  }

  /** What upload_files does (main.py:124-149) with the given `--name`. */
  function Run(env: Environment, name: Option<string>): (t: Trace)
    ensures t.calls == [] <==> !env.isDirectory || GetFiles(env.walk) == []
    ensures t.calls != [] ==> t.calls[0] == Authenticate
    ensures |t.calls| <= 2 + |GetFiles(env.walk)|
    ensures t.result.Completed? ==>
      t.result.total == |GetFiles(env.walk)| && t.result.succeeded + t.result.failed == t.result.total
  {
    var files := GetFiles(env.walk);
    if !env.isDirectory then Trace(NotADirectory, [])
    else if files == [] then Trace(NothingToUpload, [])
    else
      var auth := Decide(env.tokenFile, env.refresh, env.secretsExist, env.flow).result;
      if auth.Failed? then Trace(Aborted(auth.error), [Authenticate])
      else if !env.folderCreated then Trace(Aborted(FolderCreationFailed), Header(env, name))
      else UploadPhase(files, Results(env.uploads), Header(env, name))
  }

  /** The indices below n. */
  function Below(n: nat): (s: set<nat>)
    ensures forall i: nat :: i in s <==> i < n
    ensures |s| == n
  {
    if n == 0 then {} else Below(n - 1) + {n - 1}
  }

  /** The indices, below n, of the files whose upload_file returned True. */
  function Successes(runs: Runs, n: nat): set<nat> {
    set i | i in Below(n) && runs(i).outcome == Returned(true)
  }

  lemma SuccessesStep(runs: Runs, n: nat)
    requires n > 0
    ensures Successes(runs, n) == Successes(runs, n - 1) +
      (if runs(n - 1).outcome == Returned(true) then {n - 1} else {})
    ensures n - 1 !in Successes(runs, n - 1)
  {
  }

  /** After n files the loop has made one upload call per file reached, in
      list order. Either no file raised and all n were reached; or the last
      file reached raised, the files before it did not, and no file after it
      was tried. */
  lemma {:induction false} UploadLoopCalls(files: seq<string>, runs: Runs, n: nat)
    requires n <= |files|
    ensures var p := UploadLoop(files, runs, n);
      && (forall k :: 0 <= k < |p.calls| ==> p.calls[k] == UploadCall(files[k], runs(k).attempts))
      && (forall k :: 0 <= k < |p.calls| - 1 ==> !runs(k).outcome.Raised?)
      && (p.error.None? ==> |p.calls| == n)
      && (p.error.Some? ==> |p.calls| > 0 && runs(|p.calls| - 1).outcome == Raised(p.error.value))
  {
    if n > 0 {
      UploadLoopCalls(files, runs, n - 1);
      var p, q := UploadLoop(files, runs, n), UploadLoop(files, runs, n - 1);
      if q.error.None? {
        assert |q.calls| == n - 1;
        assert p.calls == q.calls + [UploadCall(files[n - 1], runs(n - 1).attempts)];
        forall k | 0 <= k < n - 1 ensures p.calls[k] == q.calls[k] {
        }
      } else {
        assert p == q;
      }
    }
  }

  /** If no file raised, the success count is the number of True results. */
  lemma {:induction false} UploadLoopCount(files: seq<string>, runs: Runs, n: nat)
    requires n <= |files|
    requires UploadLoop(files, runs, n).error.None?
    ensures UploadLoop(files, runs, n).succeeded == |Successes(runs, n)|
  {
    if n > 0 {
      assert UploadLoop(files, runs, n - 1).error.None?;
      UploadLoopCount(files, runs, n - 1);
      SuccessesStep(runs, n);
    }
  }

  /** Once a file has raised, the later files change nothing. */
  lemma {:induction false} ErrorSticks(files: seq<string>, runs: Runs, n: nat, m: nat)
    requires n <= m <= |files|
    requires UploadLoop(files, runs, n).error.Some?
    ensures UploadLoop(files, runs, m) == UploadLoop(files, runs, n)
    decreases m - n
  {
    if n < m {
      ErrorSticks(files, runs, n, m - 1);
    }
  }

  /** The loop ends normally exactly when no file's upload_file raises. */
  lemma {:induction false} UploadLoopNoError(files: seq<string>, runs: Runs, n: nat)
    requires n <= |files|
    ensures UploadLoop(files, runs, n).error.None? <==>
      forall k :: 0 <= k < n ==> !runs(k).outcome.Raised?
  {
    if n > 0 {
      UploadLoopNoError(files, runs, n - 1);
      if UploadLoop(files, runs, n - 1).error.Some? {
        UploadLoopCalls(files, runs, n - 1);
      }
    }
  }

  /** A missing path, a path that is not a directory, or a directory without
      files: the run returns normally and makes no request at all. */
  lemma EarlyExitsMakeNoCalls(env: Environment, name: Option<string>)
    requires !env.isDirectory || GetFiles(env.walk) == []
    ensures Run(env, name).calls == []
    ensures Run(env, name).result in {NotADirectory, NothingToUpload}
  {
  }

  /** With files to upload the run authenticates first; once authenticated it
      creates exactly one folder, named from `--name` or the directory and the
      timestamp, and then makes nothing but upload calls. */
  lemma OneFolderPerRun(env: Environment, name: Option<string>)
    requires env.isDirectory && GetFiles(env.walk) != []
    ensures var t := Run(env, name);
      && |t.calls| >= 1 && t.calls[0] == Authenticate
      && (Decide(env.tokenFile, env.refresh, env.secretsExist, env.flow).result.Failed? ==> t.calls == [Authenticate])
      && (Decide(env.tokenFile, env.refresh, env.secretsExist, env.flow).result.Obtained? ==>
            && |t.calls| >= 2
            && t.calls[1] == CreateFolder(FolderName(BaseName(name, env.dirName), env.stamp))
            && forall k :: 2 <= k < |t.calls| ==> t.calls[k].UploadCall?)
  {
    var files := GetFiles(env.walk);
    if Decide(env.tokenFile, env.refresh, env.secretsExist, env.flow).result.Obtained? && env.folderCreated {
      ReachesUploads(env, name);
      UploadLoopCalls(files, Results(env.uploads), |files|);
    }
  }

  /** Once authenticated, the folder requested is named from a non-empty
      `--name` value when one is given, and from the directory's own name
      otherwise: an empty `--name` is false in Python. */
  lemma FolderNameChosen(env: Environment, name: Option<string>)
    requires env.isDirectory && GetFiles(env.walk) != []
    requires Decide(env.tokenFile, env.refresh, env.secretsExist, env.flow).result.Obtained?
    ensures |Run(env, name).calls| >= 2
    ensures name.Some? && name.value != [] ==>
      Run(env, name).calls[1] == CreateFolder(FolderName(name.value, env.stamp))
    ensures name.None? || name.value == [] ==>
      Run(env, name).calls[1] == CreateFolder(FolderName(env.dirName, env.stamp))
  {
  }

  /** After the folder exists: the run completes exactly when no upload_file
      call raises; a completed run called upload_file once per file, in list
      order, and its counts are the number of True results and the rest. */
  lemma UploadPhaseShape(files: seq<string>, runs: Runs, header: seq<Call>)
    ensures var t := UploadPhase(files, runs, header);
      && (t.result.Completed? <==> forall k :: 0 <= k < |files| ==> !runs(k).outcome.Raised?)
      && (t.result.Completed? ==>
            && t.result.total == |files|
            && t.result.succeeded == |Successes(runs, |files|)|
            && t.result.succeeded <= t.result.total
            && t.result.failed == t.result.total - t.result.succeeded
            && |t.calls| == |header| + |files|
            && forall k :: 0 <= k < |files| ==> t.calls[|header| + k] == UploadCall(files[k], runs(k).attempts))
  {
    var p := UploadLoop(files, runs, |files|);
    UploadLoopNoError(files, runs, |files|);
    UploadLoopCalls(files, runs, |files|);
    if p.error.None? {
      UploadLoopCount(files, runs, |files|);
      var t := UploadPhase(files, runs, header);
      forall k | 0 <= k < |files|
        ensures t.calls[|header| + k] == UploadCall(files[k], runs(k).attempts)
      {
        assert t.calls[|header| + k] == p.calls[k];
      }
    }
  }

  /** The run gets to the uploads exactly when the directory is valid and not
      empty, authentication succeeds and the folder is created. */
  lemma ReachesUploads(env: Environment, name: Option<string>)
    requires env.isDirectory && GetFiles(env.walk) != []
    requires Decide(env.tokenFile, env.refresh, env.secretsExist, env.flow).result.Obtained?
    requires env.folderCreated
    ensures Run(env, name) == UploadPhase(GetFiles(env.walk), Results(env.uploads), Header(env, name))
  {
  }

  /** A completed run called upload_file once per file, in list order, and its
      counts are the number of True results and the rest. */
  lemma CompletedRun(env: Environment, name: Option<string>)
    requires Run(env, name).result.Completed?
    ensures var t := Run(env, name); var files := GetFiles(env.walk);
      && t.result.total == |files| > 0
      && t.result.succeeded == |Successes(Results(env.uploads), |files|)|
      && t.result.succeeded <= t.result.total
      && t.result.failed == t.result.total - t.result.succeeded
      && |t.calls| == 2 + |files|
      && forall k :: 0 <= k < |files| ==> t.calls[2 + k] == UploadCall(files[k], Upload(env.uploads(k)).attempts)
  {
    var files := GetFiles(env.walk);
    ReachesUploads(env, name);
    UploadPhaseShape(files, Results(env.uploads), Header(env, name));
  }

  /** The run completes exactly when it gets past the early exits,
      authentication and folder creation, and no upload_file call raises. */
  lemma CompletedIff(env: Environment, name: Option<string>)
    ensures Run(env, name).result.Completed? <==>
      && env.isDirectory && GetFiles(env.walk) != []
      && Decide(env.tokenFile, env.refresh, env.secretsExist, env.flow).result.Obtained?
      && env.folderCreated
      && forall k :: 0 <= k < |GetFiles(env.walk)| ==> !Upload(env.uploads(k)).outcome.Raised?
  {
    var files := GetFiles(env.walk);
    if env.isDirectory && files != [] && Decide(env.tokenFile, env.refresh, env.secretsExist, env.flow).result.Obtained?
       && env.folderCreated {
      ReachesUploads(env, name);
      UploadPhaseShape(files, Results(env.uploads), Header(env, name));
      assert forall k :: 0 <= k < |files| ==> Results(env.uploads)(k) == Upload(env.uploads(k));
    }
  }

  /** A backend that accepts every first attempt: all N files succeed, none fails. */
  lemma AllAccepted(env: Environment, name: Option<string>)
    requires env.isDirectory && GetFiles(env.walk) != []
    requires Decide(env.tokenFile, env.refresh, env.secretsExist, env.flow).result.Obtained?
    requires env.folderCreated
    requires forall i :: env.uploads(i)(0) == Accepted
    ensures var n := |GetFiles(env.walk)|; Run(env, name).result == Completed(n, n, 0)
  {
    var files, runs := GetFiles(env.walk), Results(env.uploads);
    var n := |files|;
    ReachesUploads(env, name);
    forall i: nat | i < n ensures runs(i) == UploadRun(Returned(true), 1) {
      UploadAcceptedAt(env.uploads(i), 0);
    }
    UploadPhaseShape(files, runs, Header(env, name));
    assert Successes(runs, n) == Below(n);
  }

  /** One file j meets an HttpError on every attempt while the others are
      accepted at once: the run goes on past it and reports N - 1 successes
      and one failure. */
  lemma OneFileExhausted(env: Environment, name: Option<string>, j: nat)
    requires env.isDirectory && j < |GetFiles(env.walk)|
    requires Decide(env.tokenFile, env.refresh, env.secretsExist, env.flow).result.Obtained?
    requires env.folderCreated
    requires HttpFailuresBefore(env.uploads(j), MaxRetries)
    requires forall i :: i != j ==> env.uploads(i)(0) == Accepted
    ensures var n := |GetFiles(env.walk)|; Run(env, name).result == Completed(n, n - 1, 1)
  {
    var files, runs := GetFiles(env.walk), Results(env.uploads);
    var n := |files|;
    ReachesUploads(env, name);
    UploadFalseIff(env.uploads(j));
    assert runs(j).outcome == Returned(false);
    forall i: nat | i < n && i != j ensures runs(i).outcome == Returned(true) {
      UploadAcceptedAt(env.uploads(i), 0);
    }
    UploadPhaseShape(files, runs, Header(env, name));
    AllButOne(runs, n, j);
  }

  lemma AllButOne(runs: Runs, n: nat, j: nat)
    requires j < n && runs(j).outcome == Returned(false)
    requires forall i: nat :: i < n && i != j ==> runs(i).outcome == Returned(true)
    ensures |Successes(runs, n)| == n - 1
  {
    assert Successes(runs, n) == Below(n) - {j};
    assert j in Below(n);
  }

  /** main.py:124-149, with success_count updated as the source does. */
  method UploadFiles(env: Environment, name: Option<string>) returns (result: RunResult, calls: seq<Call>)
    ensures Trace(result, calls) == Run(env, name)
  {
    calls := [];
    if !env.isDirectory {
      return NotADirectory, calls;
    }
    var files := GetFiles(env.walk);
    if files == [] {
      return NothingToUpload, calls;
    }
    calls := calls + [Authenticate];
    var auth, _ := GetCredentials(env.tokenFile, env.refresh, env.secretsExist, env.flow);
    if auth.Failed? {
      return Aborted(auth.error), calls;
    }
    var folderBaseName := BaseName(name, env.dirName);
    calls := calls + [CreateFolder(FolderName(folderBaseName, env.stamp))];
    if !env.folderCreated {
      return Aborted(FolderCreationFailed), calls;
    }
    var successCount, uploadCalls, error := UploadEach(files, env.uploads);
    calls := calls + uploadCalls;
    if error.Some? {
      return Aborted(error.value), calls;
    }
    var total := |files|;
    var failureCount := total - successCount;
    return Completed(total, successCount, failureCount), calls;
  }

  /** The loop of main.py:140-143: one upload_file call per file, in order,
      counting the True results; an exception from upload_file ends it. */
  method UploadEach(files: seq<string>, uploads: nat -> Script)
    returns (successCount: nat, uploadCalls: seq<Call>, error: Option<Failure>)
    ensures Progress(successCount, uploadCalls, error) == UploadLoop(files, Results(uploads), |files|)
  {
    successCount, uploadCalls := 0, [];
    for i := 0 to |files|
      invariant UploadLoop(files, Results(uploads), i) == Progress(successCount, uploadCalls, None)
    {
      var run := UploadFile(uploads(i));
      uploadCalls := uploadCalls + [UploadCall(files[i], run.attempts)];
      if run.outcome.Raised? {
        ErrorSticks(files, Results(uploads), i + 1, |files|);
        return successCount, uploadCalls, Some(run.outcome.error);
      }
      if run.outcome.uploaded {
        successCount := successCount + 1;
      }
    }
    error := None;
  }
}
