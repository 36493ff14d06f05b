/**
 * `ResourceManager._download_to_path`: a bounded retry loop that streams each
 * response into a sibling temporary file and renames it onto the destination.
 * The network is replaced by the outcome of every attempt, the uuid of every
 * attempt's temporary file by a token.
 */
module Downloader {
  import opened Wrappers
  import opened FileSystem

  /** The exception families the loop catches (all handled alike). */
  datatype ErrorKind = Timeout | PayloadError | ClientError | OtherError

  /**
   * What one GET did. `NoResponse`: it raised before a status was read.
   * `Response`: a status arrived; on 2xx the body was streamed into the
   * temporary file, of which `written` reached the disk, and `failure` is the
   * exception raised while streaming or renaming, if any.
   */
  datatype Outcome =
    | NoResponse(error: ErrorKind)
    | Response(status: int, written: Blob, failure: Option<ErrorKind>)

  /** The per-attempt inputs of one call: outcomes and temporary-file tokens. */
  datatype Fetch = Fetch(outcomes: seq<Outcome>, tokens: seq<string>)

  /** `max(0, int(retries))`: the number of extra attempts. */
  function RetryBudget(retries: int): nat {
    if retries < 0 then 0 else retries
  }

  /** The inputs cover every attempt the loop may make. */
  predicate Covers(f: Fetch, budget: nat) {
    |f.outcomes| > budget && |f.tokens| > budget
  }

  /** `dest.parent / f"{dest.name}.{uuid}.tmp"` */
  function TmpPath(dest: Path, token: string): Path {
    dest + "." + token + ".tmp"
  }

  predicate IsSuccess(status: int) {
    200 <= status < 300
  }

  predicate IsServerError(status: int) {
    500 <= status <= 599
  }

  /** A clean success: a 2xx body written and renamed without an exception. */
  predicate Delivers(o: Outcome) {
    o.Response? && IsSuccess(o.status) && o.failure.None?
  }

  /** An outcome after which attempt `attempt` (of `0..budget`) ends the loop at once. */
  predicate EndsLoop(o: Outcome, attempt: nat, budget: nat) {
    Delivers(o) || (o.Response? && !IsSuccess(o.status) && !(IsServerError(o.status) && attempt < budget))
  }

  /** The verdict, the number of GETs made and the files afterwards. */
  datatype Result = Result(ok: bool, attempts: nat, files: map<Path, FileInfo>)

  /** The loop from attempt `attempt` on; `now` is the time the files are written. */
  function Run(files: map<Path, FileInfo>, dest: Path, f: Fetch, budget: nat, attempt: nat, now: real): Result
    requires Covers(f, budget) && attempt <= budget + 1
    decreases budget + 1 - attempt
  {
    if attempt == budget + 1 then Result(false, attempt, files)
    else
      var tmp := TmpPath(dest, f.tokens[attempt]);
      match f.outcomes[attempt]
      case NoResponse(_) =>
        Run(files - {tmp}, dest, f, budget, attempt + 1, now)
      case Response(status, written, error) =>
        if !IsSuccess(status) then
          if IsServerError(status) && attempt < budget then Run(files - {tmp}, dest, f, budget, attempt + 1, now)
          else Result(false, attempt + 1, files - {tmp})
        else if error.Some? then
          Run(files[tmp := FileInfo(now, written)] - {tmp}, dest, f, budget, attempt + 1, now)
        else
          Result(true, attempt + 1, (files[tmp := FileInfo(now, written)] - {tmp})[dest := FileInfo(now, written)])
  }

  /** The temporary files of attempts `0..n-1`. */
  function Temps(dest: Path, f: Fetch, n: nat): set<Path>
    requires n <= |f.tokens|
  {
    set i | 0 <= i < n :: TmpPath(dest, f.tokens[i])
  }

  lemma TmpIsNotDest(dest: Path, token: string)
    ensures TmpPath(dest, token) != dest
  {
    assert |TmpPath(dest, token)| > |dest|;
  }

  /**
   * What a download does, stated without the loop: the number of GETs is at
   * most `budget + 1`; every attempt before the last was retried and the loop
   * stops early only on a final outcome; the call succeeds exactly when the
   * last attempt delivered; no temporary file of any attempt is left behind;
   * the destination holds the delivered body on success and is untouched on
   * failure; nothing else changes.
   */
  lemma {:induction false} RunSpec(files: map<Path, FileInfo>, dest: Path, f: Fetch, budget: nat, attempt: nat, now: real)
    requires Covers(f, budget) && attempt <= budget
    ensures var r := Run(files, dest, f, budget, attempt, now);
      && attempt < r.attempts <= budget + 1
      && (forall i :: attempt <= i < r.attempts - 1 ==> !EndsLoop(f.outcomes[i], i, budget))
      && (r.attempts <= budget ==> EndsLoop(f.outcomes[r.attempts - 1], r.attempts - 1, budget))
      && (r.ok <==> Delivers(f.outcomes[r.attempts - 1]))
      && (forall i :: attempt <= i < r.attempts ==> TmpPath(dest, f.tokens[i]) !in r.files)
      && (r.ok ==> dest in r.files && r.files[dest] == FileInfo(now, f.outcomes[r.attempts - 1].written))
      && (!r.ok ==> (dest in r.files <==> dest in files) && (dest in files ==> r.files[dest] == files[dest]))
      && (forall p :: p != dest && (forall i :: attempt <= i < r.attempts ==> p != TmpPath(dest, f.tokens[i])) ==>
            (p in r.files <==> p in files) && (p in files ==> r.files[p] == files[p]))
    decreases budget - attempt
  {
    var tmp := TmpPath(dest, f.tokens[attempt]);
    TmpIsNotDest(dest, f.tokens[attempt]);
    var o := f.outcomes[attempt];
    var next := files - {tmp};
    if o.NoResponse? || (o.Response? && !IsSuccess(o.status) && IsServerError(o.status) && attempt < budget)
      || (o.Response? && IsSuccess(o.status) && o.failure.Some?)
    {
      assert !EndsLoop(o, attempt, budget);
      if o.Response? && IsSuccess(o.status) {
        assert files[tmp := FileInfo(now, o.written)] - {tmp} == next;
      }
      assert Run(files, dest, f, budget, attempt, now) == Run(next, dest, f, budget, attempt + 1, now);
      if attempt < budget {
        RunSpec(next, dest, f, budget, attempt + 1, now);
      }
    }
  }

  /** The whole call: at most `max(0, retries) + 1` GETs, and the properties above from attempt 0. */
  lemma DownloadSpec(files: map<Path, FileInfo>, dest: Path, f: Fetch, retries: int, now: real)
    requires Covers(f, RetryBudget(retries))
    ensures var r := Run(files, dest, f, RetryBudget(retries), 0, now);
      && 1 <= r.attempts <= RetryBudget(retries) + 1
      && (r.ok <==> Delivers(f.outcomes[r.attempts - 1]))
      && Temps(dest, f, r.attempts) !! r.files.Keys
      && (r.ok ==> dest in r.files && r.files[dest].content == f.outcomes[r.attempts - 1].written)
      && (!r.ok ==> (dest in r.files <==> dest in files) && (dest in files ==> r.files[dest] == files[dest]))
  {
    RunSpec(files, dest, f, RetryBudget(retries), 0, now);
  }

  /** A status that is neither 2xx nor 5xx fails the call on the spot, retries left or not. */
  lemma ClientErrorIsNotRetried(files: map<Path, FileInfo>, dest: Path, f: Fetch, budget: nat, now: real)
    requires Covers(f, budget)
    requires f.outcomes[0].Response? && !IsSuccess(f.outcomes[0].status) && !IsServerError(f.outcomes[0].status)
    ensures Run(files, dest, f, budget, 0, now) == Result(false, 1, files - {TmpPath(dest, f.tokens[0])})
  {
  }

  /** A 503 followed by a 200 with one retry succeeds and leaves neither temporary file behind. */
  lemma ServerErrorThenSuccess(files: map<Path, FileInfo>, dest: Path, t0: string, t1: string, body: Blob, now: real)
    ensures var f := Fetch([Response(503, [], None), Response(200, body, None)], [t0, t1]);
      var r := Run(files, dest, f, 1, 0, now);
      && r.ok && r.attempts == 2
      && r.files[dest] == FileInfo(now, body)
      && TmpPath(dest, t0) !in r.files && TmpPath(dest, t1) !in r.files
  {
    TmpIsNotDest(dest, t0);
    TmpIsNotDest(dest, t1);
  }

  /**
   * The loop itself. `ok` is the returned bool; `attempts` counts the GETs made.
   * `url` names the resource the outcomes belong to.
   */
  method DownloadToPath(disk: Disk, url: string, dest: Path, f: Fetch, retries: int, now: real)
    returns (ok: bool, attempts: nat)
    requires Covers(f, RetryBudget(retries))
    modifies disk
    ensures Run(old(disk.files), dest, f, RetryBudget(retries), 0, now) == Result(ok, attempts, disk.files)
  {
    var budget := if retries < 0 then 0 else retries;
    var attempt := 0;
    while attempt < budget + 1
      invariant 0 <= attempt <= budget + 1
      invariant Run(old(disk.files), dest, f, budget, 0, now) == Run(disk.files, dest, f, budget, attempt, now)
    {
      var tmp := TmpPath(dest, f.tokens[attempt]);
      match f.outcomes[attempt] {
        case NoResponse(_) =>
          disk.RemoveIfExists(tmp);
        case Response(status, written, error) =>
          if !IsSuccess(status) {
            if IsServerError(status) && attempt < budget {
              disk.RemoveIfExists(tmp);
              attempt := attempt + 1;
              continue;
            }
            disk.RemoveIfExists(tmp);
            return false, attempt + 1;
          }
          disk.Write(tmp, FileInfo(now, written));
          if error.None? {
            disk.Replace(tmp, dest);
            disk.RemoveIfExists(tmp);
            TmpIsNotDest(dest, f.tokens[attempt]);
            return true, attempt + 1;
          }
          disk.RemoveIfExists(tmp);
      }
      attempt := attempt + 1;
    }
    return false, attempt;
  }
}
