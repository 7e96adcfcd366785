/**
 * The HTTP+zsync binary cache store (src/libstore/zsync-binary-cache-store.cc): a binary
 * cache reached over HTTP whose compressed NARs are fetched with the `zsync` tool, reusing
 * the NARs already under /tmp. It keeps the cache URI it was opened with and a back-off
 * state: after a transfer failure, with fallback enabled, the cache is disabled for 60
 * seconds.
 *
 * Time is an integer number of seconds on a monotonic clock, passed in by the caller; the
 * default-constructed time point is 0. Transfers, the subprocess and the HTTP store's own
 * getFile are functions passed in as parameters.
 */
module ZsyncStore {
  import opened Wrappers
  import opened Strings
  import opened Globals
  import FileSystem

  /** How long a failing cache stays disabled, in seconds. */
  const DisableSeconds: int := 60

  /** The guarded state: whether the cache is in use and, when not, until when. */
  datatype State = State(enabled: bool, disabledUntil: int)

  const InitialState: State := State(true, 0)

  /** FileTransfer::Error: the kinds fileExists distinguishes; all others are OtherKind. */
  datatype TransferErrorKind = NotFound | Forbidden | OtherKind

  datatype TransferError = TransferError(kind: TransferErrorKind, msg: string)

  datatype StoreError =
    | SubstituterDisabled(msg: string)
    | TransferFailed(error: TransferError)
    | NoSuchBinaryCacheFile(msg: string)
    | ExecFailed(msg: string)

  /** FileTransferRequest: the URI to fetch, and whether only the headers are wanted. */
  datatype Request = Request(uri: string, head: bool)

  /** RunOptions: the program, its arguments and the working directory. */
  datatype RunOptions = RunOptions(program: string, args: seq<string>, chdir: string)

  // ---------------------------------------------------------------------------------
  // URIs

  /** The index of the first `c` in `s`, as std::string::find gives it. */
  function FindChar(s: string, c: char): (r: Option<nat>)
    ensures r.None? <==> c !in s
    ensures r.Some? ==> r.value < |s| && s[r.value] == c && c !in s[..r.value]
  {
    if |s| == 0 then None
    else if s[0] == c then Some(0)
    else match FindChar(s[1..], c)
      case None => None
      case Some(i) => assert s[..i + 1] == [s[0]] + s[1..][..i]; Some(i + 1)
  }

  /** `scheme.substr(0, scheme.find("+"))`: the scheme up to its first '+'. */
  function SchemeBase(scheme: string): (r: string)
    ensures '+' !in r
    ensures HasPrefix(scheme, r)
    ensures r == scheme || scheme[|r|] == '+'
  {
    match FindChar(scheme, '+')
    case None => scheme
    case Some(i) => scheme[..i]
  }

  /** The cache URI a store opened as `scheme://rawCacheUri` keeps: a prefix of the scheme
      with no '+', then "://", then the raw URI as given, trailing slash included. */
  function CacheUriOf(scheme: string, rawCacheUri: string): (r: string)
    ensures |r| == |SchemeBase(scheme)| + 3 + |rawCacheUri|
    ensures HasPrefix(scheme, r[..|SchemeBase(scheme)|]) && '+' !in r[..|SchemeBase(scheme)|]
    ensures r[|SchemeBase(scheme)|..] == "://" + rawCacheUri
  {
    SchemeBase(scheme) + "://" + rawCacheUri
  }

  /** The URI schemes this store is registered for: zsync over HTTP and over HTTPS. */
  function UriSchemes(): (r: set<string>)
    ensures |r| == 2
    ensures "http+zsync" in r && "https+zsync" in r
  {
    {"http+zsync", "https+zsync"}
  }

  /** Each registered scheme is HTTP or HTTPS followed by "+zsync". */
  lemma UriSchemesShape(scheme: string)
    requires scheme in UriSchemes()
    ensures HasSuffix(scheme, "+zsync")
    ensures var base := scheme[..|scheme| - 6]; (base == "http" || base == "https") && '+' !in base
  {
  }

  /** A store opened with a `<base>+zsync` scheme talks to `<base>://` and the raw URI. */
  lemma ZsyncSchemeCacheUri(scheme: string, rawCacheUri: string)
    requires HasSuffix(scheme, "+zsync") && '+' !in scheme[..|scheme| - 6]
    ensures CacheUriOf(scheme, rawCacheUri) == scheme[..|scheme| - 6] + "://" + rawCacheUri
  {
    var base := scheme[..|scheme| - 6];
    assert scheme == base + "+" + "zsync";
    SchemeBaseOf(base, "zsync");
  }

  /** The scheme up to its '+' of `base+rest` is `base` when `base` has no '+'. */
  lemma SchemeBaseOf(base: string, rest: string)
    requires '+' !in base
    ensures SchemeBase(base + "+" + rest) == base
  {
    var s := base + "+" + rest;
    assert s[|base|] == '+' && s[..|base|] == base;
    var r := FindChar(s, '+');
    assert r.Some?;
    assert forall k :: 0 <= k < |base| ==> s[k] != '+' by {
      forall k | 0 <= k < |base|
        ensures s[k] != '+'
      {
        assert s[k] == base[k];
      }
    }
    assert forall k :: 0 <= k < r.value ==> s[k] != '+' by {
      forall k | 0 <= k < r.value
        ensures s[k] != '+'
      {
        assert s[..r.value][k] == s[k];
      }
    }
  }

  /** The cache URI keeps a trailing slash of the raw URI: the slash removed from the
      first value of cacheUri is put back when cacheUri is recomputed. */
  lemma CacheUriKeepsTrailingSlash(scheme: string, rawCacheUri: string)
    requires HasSuffix(rawCacheUri, "/")
    ensures HasSuffix(CacheUriOf(scheme, rawCacheUri), "/")
  {
    var u := CacheUriOf(scheme, rawCacheUri);
    assert u[|u| - 1] == rawCacheUri[|rawCacheUri| - 1];
  }

  /** A path that makeRequest passes through as a URI of its own. */
  predicate IsFullURI(path: string)
  {
    HasPrefix(path, "https://") || HasPrefix(path, "http://") || HasPrefix(path, "file://")
  }

  // ---------------------------------------------------------------------------------
  // The back-off state machine

  /** What maybeDisable does to the state on a transfer failure at time `now`. */
  function AfterMaybeDisable(s: State, tryFallback: bool, now: int): (r: State)
    ensures r == s <==> !(s.enabled && tryFallback)
    ensures r != s ==> !r.enabled && r.disabledUntil == now + DisableSeconds
  {
    if s.enabled && tryFallback then State(false, now + DisableSeconds) else s
  }

  /** Whether checkEnabled lets an operation through at time `now`. */
  predicate Admits(s: State, now: int)
  {
    s.enabled || now > s.disabledUntil
  }

  /** What checkEnabled does to the state: re-enable once the deadline has strictly passed. */
  function AfterCheckEnabled(s: State, now: int): (r: State)
    ensures r.enabled <==> Admits(s, now)
    ensures r.disabledUntil == s.disabledUntil
    ensures !Admits(s, now) ==> r == s
    ensures s.enabled ==> r == s
  {
    if !s.enabled && now > s.disabledUntil then s.(enabled := true) else s
  }

  /** After a failure disables the cache at time t, it refuses every operation up to and
      including t + 60 and admits every one after. */
  lemma BackOffWindow(s: State, t: int, now: int)
    requires s.enabled
    ensures Admits(AfterMaybeDisable(s, true, t), now) <==> now > t + DisableSeconds
  {
  }

  /** Failures while disabled do not push the deadline back. */
  lemma FailuresDoNotExtend(s: State, tryFallback: bool, t1: int, t2: int)
    ensures var d := AfterMaybeDisable(s, tryFallback, t1);
      AfterMaybeDisable(d, tryFallback, t2) == d
  {
  }

  /** Without fallback the cache is never disabled, so every check admits. */
  lemma NoFallbackStaysEnabled(s: State, now: int, later: int)
    requires s.enabled
    ensures AfterMaybeDisable(s, false, now) == s
    ensures Admits(AfterMaybeDisable(s, false, now), later)
  {
  }

  /** A refused check changes nothing, so refusals repeat until the deadline passes. */
  lemma RefusalIsStable(s: State, now: int, later: int)
    requires !Admits(s, now) && later <= s.disabledUntil
    ensures AfterCheckEnabled(s, now) == s
    ensures !Admits(AfterCheckEnabled(s, now), later)
  {
  }

  /** Once re-enabled, the cache stays enabled for later checks. */
  lemma AdmittedStaysAdmitted(s: State, now: int, later: int)
    requires Admits(s, now)
    ensures AfterCheckEnabled(s, now).enabled
    ensures AfterCheckEnabled(AfterCheckEnabled(s, now), later) == AfterCheckEnabled(s, now)
  {
  }

  function DisablingMessage(uri: string): string
  {
    "disabling binary cache '" + uri + "' for 60 seconds"
  }

  function ReenablingMessage(uri: string): string
  {
    "re-enabling binary cache '" + uri + "'"
  }

  function DisabledError(uri: string): StoreError
  {
    SubstituterDisabled("substituter '" + uri + "' is disabled")
  }

  /** The log lines of maybeDisable. */
  function MaybeDisableLogs(s: State, tryFallback: bool, uri: string): seq<LogEntry>
  {
    if s.enabled && tryFallback then [Message(LvlError, DisablingMessage(uri))] else []
  }

  /** The log lines of checkEnabled. */
  function CheckEnabledLogs(s: State, now: int, uri: string): seq<LogEntry>
  {
    if !s.enabled && now > s.disabledUntil then [Message(LvlDebug, ReenablingMessage(uri))] else []
  }

  // ---------------------------------------------------------------------------------
  // fileExists and getFile, as functions of the state

  /** A missing file: S3 answers 403 for a missing file in an unlistable bucket. */
  predicate IsMissing(e: TransferError)
  {
    e.kind.NotFound? || e.kind.Forbidden?
  }

  /** What fileExists makes of the answer to its HEAD request. */
  function ExistsFromTransfer(t: Outcome<TransferError>): (r: Result<bool, StoreError>)
    ensures r == Success(true) <==> t.Pass?
    ensures r == Success(false) <==> t.Fail? && IsMissing(t.error)
    ensures r.Failure? <==> t.Fail? && !IsMissing(t.error)
    ensures r.Failure? ==> r.error == TransferFailed(t.error)
  {
    match t
    case Pass => Success(true)
    case Fail(e) => if IsMissing(e) then Success(false) else Failure(TransferFailed(e))
  }

  /** Whether fileExists goes on to maybeDisable: only when checkEnabled let it through and
      the transfer failed other than by a missing file. */
  predicate ExistsDisables(s: State, now: int, answer: Outcome<TransferError>)
  {
    Admits(s, now) && answer.Fail? && !IsMissing(answer.error)
  }

  /** fileExists(path), as a function of the state before the call and of the answer to its
      HEAD request. */
  function FileExistsResult(cacheUri: string, s: State, now: int,
                            answer: Outcome<TransferError>): Result<bool, StoreError>
  {
    if !Admits(s, now) then Failure(DisabledError(cacheUri)) else ExistsFromTransfer(answer)
  }

  /** The back-off state after fileExists. */
  function FileExistsState(s: State, tryFallback: bool, now: int, failedAt: int,
                           answer: Outcome<TransferError>): State
  {
    if ExistsDisables(s, now, answer)
    then AfterMaybeDisable(AfterCheckEnabled(s, now), tryFallback, failedAt)
    else AfterCheckEnabled(s, now)
  }

  /** The log lines of fileExists. */
  function FileExistsLogs(cacheUri: string, s: State, tryFallback: bool, now: int,
                          answer: Outcome<TransferError>): seq<LogEntry>
  {
    CheckEnabledLogs(s, now, cacheUri)
      + if ExistsDisables(s, now, answer)
        then MaybeDisableLogs(AfterCheckEnabled(s, now), tryFallback, cacheUri) else []
  }

  /** A refused fileExists changes nothing; an admitted one answers what the transfer says;
      a missing file never disables the cache; and any other failure, with fallback on,
      disables it for DisableSeconds from the time the transfer failed. */
  lemma FileExistsOutcome(cacheUri: string, s: State, tryFallback: bool, now: int, failedAt: int,
                          answer: Outcome<TransferError>)
    ensures !Admits(s, now) ==>
              && FileExistsResult(cacheUri, s, now, answer) == Failure(DisabledError(cacheUri))
              && FileExistsState(s, tryFallback, now, failedAt, answer) == s
              && FileExistsLogs(cacheUri, s, tryFallback, now, answer) == []
    ensures Admits(s, now) ==> FileExistsResult(cacheUri, s, now, answer) == ExistsFromTransfer(answer)
    ensures FileExistsResult(cacheUri, s, now, answer).Success? ==>
              FileExistsState(s, tryFallback, now, failedAt, answer).enabled
    ensures ExistsDisables(s, now, answer) && tryFallback ==>
              && !FileExistsState(s, tryFallback, now, failedAt, answer).enabled
              && FileExistsState(s, tryFallback, now, failedAt, answer).disabledUntil == failedAt + DisableSeconds
              && FileExistsLogs(cacheUri, s, tryFallback, now, answer)
                 == CheckEnabledLogs(s, now, cacheUri) + [Message(LvlError, DisablingMessage(cacheUri))]
    ensures ExistsDisables(s, now, answer) && !tryFallback ==>
              FileExistsState(s, tryFallback, now, failedAt, answer) == AfterCheckEnabled(s, now)
  {
  }

  /** The shell command getFile runs: zsync the NAR against the NARs under /tmp, then write
      the result to standard output. */
  function ZsyncCommand(cacheUri: string, path: string, basePath: string): string
  {
    ZsyncFetch(cacheUri, path) + "$(find /tmp/*.nar.gz -iname '*.nar.gz' -printf '-i %p ') 1>&2" + ("; cat " + basePath)
  }

  /** The start of the command: zsync and the URI of the control file. */
  function ZsyncFetch(cacheUri: string, path: string): string
  {
    "zsync " + cacheUri + "/" + path + ".zsync "
  }

  function ZsyncRun(cacheUri: string, path: string): (r: RunOptions)
  {
    RunOptions("sh", ["-c", ZsyncCommand(cacheUri, path, FileSystem.BaseName(path))], "/tmp")
  }

  /** The zsync run fetches the control file next to the NAR on the cache, from /tmp,
      and prints the file zsync writes there, named by the NAR's base name. */
  lemma ZsyncRunShape(cacheUri: string, path: string)
    ensures var opts := ZsyncRun(cacheUri, path);
      && opts.program == "sh" && |opts.args| == 2 && opts.args[0] == "-c" && opts.chdir == "/tmp"
      && HasPrefix(opts.args[1], "zsync " + cacheUri + "/" + path + ".zsync ")
      && HasSuffix(opts.args[1], "; cat " + FileSystem.BaseName(path))
      && '/' !in FileSystem.BaseName(path)
  {
    var pre := ZsyncFetch(cacheUri, path);
    var mid := "$(find /tmp/*.nar.gz -iname '*.nar.gz' -printf '-i %p ') 1>&2";
    var post := "; cat " + FileSystem.BaseName(path);
    var cmd := pre + mid + post;
    assert cmd[..|pre|] == pre;
    assert cmd[|cmd| - |post|..] == post;
    FileSystem.BaseNameNoSep(path);
  }

  /** getFile(path, sink), as a function of the state before the call. */
  function GetFileResult(cacheUri: string, s: State, now: int, path: string,
                         httpGetFile: string -> Result<string, StoreError>,
                         run: RunOptions -> Result<string, StoreError>): Result<string, StoreError>
  {
    if !HasSuffix(path, ".nar.gz") then httpGetFile(path)
    else if !Admits(s, now) then Failure(DisabledError(cacheUri))
    else run(ZsyncRun(cacheUri, path))
  }

  /** getFile(path): a missing file is no contents rather than an error. */
  function NullOnMissing(r: Result<string, StoreError>): (o: Result<Option<string>, StoreError>)
    ensures o.Success? <==> r.Success? || r.error.NoSuchBinaryCacheFile?
    ensures r.Success? ==> o == Success(Some(r.value))
    ensures r.Failure? && r.error.NoSuchBinaryCacheFile? ==> o == Success(None)
    ensures o.Failure? ==> o.error == r.error
  {
    match r
    case Success(v) => Success(Some(v))
    case Failure(e) => if e.NoSuchBinaryCacheFile? then Success(None) else Failure(e)
  }

  /** Only compressed NARs go through zsync, and only they are subject to the back-off;
      everything else is the HTTP store's answer, whatever the state. */
  lemma GetFileDispatch(cacheUri: string, s: State, s': State, now: int, now': int, path: string,
                        httpGetFile: string -> Result<string, StoreError>,
                        run: RunOptions -> Result<string, StoreError>)
    requires !HasSuffix(path, ".nar.gz")
    ensures GetFileResult(cacheUri, s, now, path, httpGetFile, run)
         == GetFileResult(cacheUri, s', now', path, httpGetFile, run)
         == httpGetFile(path)
  {
  }

  /** runProgram2 reports a failure only as an exec error (ExecError). */
  ghost predicate RunFailsByExec(run: RunOptions -> Result<string, StoreError>)
  {
    forall o :: run(o).Failure? ==> run(o).error.ExecFailed?
  }

  /** A compressed NAR never comes back as a missing file: the zsync branch fails only with
      checkEnabled's SubstituterDisabled or the subprocess's exec error, so getFile(path)
      gives the subprocess's output or an error, never null. */
  lemma ZsyncNeverNull(cacheUri: string, s: State, now: int, path: string,
                       httpGetFile: string -> Result<string, StoreError>,
                       run: RunOptions -> Result<string, StoreError>)
    requires HasSuffix(path, ".nar.gz") && RunFailsByExec(run)
    ensures NullOnMissing(GetFileResult(cacheUri, s, now, path, httpGetFile, run)).Success? ==>
              NullOnMissing(GetFileResult(cacheUri, s, now, path, httpGetFile, run))
                == Success(Some(run(ZsyncRun(cacheUri, path)).value))
    ensures NullOnMissing(GetFileResult(cacheUri, s, now, path, httpGetFile, run)).Failure? ==>
              || NullOnMissing(GetFileResult(cacheUri, s, now, path, httpGetFile, run)).error == DisabledError(cacheUri)
              || NullOnMissing(GetFileResult(cacheUri, s, now, path, httpGetFile, run)).error.ExecFailed?
  {
  }

  // ---------------------------------------------------------------------------------
  // The store object

  class ZsyncBinaryCacheStore {
    var cacheUri: string
    var state: State
    const settings: Settings
    const logger: Logger

    /** The constructor: the URI is first composed with the full scheme and stripped of a
        trailing slash, then recomposed with the scheme up to its '+'. */
    constructor (scheme: string, rawCacheUri: string, settings: Settings, logger: Logger)
      ensures cacheUri == CacheUriOf(scheme, rawCacheUri)
      ensures state == InitialState
      ensures this.settings == settings && this.logger == logger
    {
      this.settings := settings;
      this.logger := logger;
      var uri := scheme + "://" + rawCacheUri;
      if uri[|uri| - 1] == '/' {
        uri := uri[..|uri| - 1];
      }
      cacheUri := uri;
      var myScheme := SchemeBase(scheme);
      cacheUri := myScheme + "://" + rawCacheUri;
      state := InitialState;
    }

    function GetUri(): (r: string)
      reads this
      ensures r == cacheUri
    {
      cacheUri
    }

    /** makeRequest: a full URI as it is, anything else relative to the cache. */
    function MakeRequest(path: string): (r: Request)
      reads this
      ensures IsFullURI(path) ==> r.uri == path
      ensures !IsFullURI(path) ==> r.uri == cacheUri + "/" + path
      ensures !r.head
    {
      Request(if IsFullURI(path) then path else cacheUri + "/" + path, false)
    }

    method MaybeDisable(now: int)
      modifies this`state, logger
      ensures state == AfterMaybeDisable(old(state), settings.tryFallback, now)
      ensures logger.entries == old(logger.entries) + MaybeDisableLogs(old(state), settings.tryFallback, cacheUri)
    {
      if state.enabled && settings.tryFallback {
        var t := DisableSeconds;
        logger.Log(Message(LvlError, DisablingMessage(GetUri())));
        state := State(false, now + t);
      }
    }

    method CheckEnabled(now: int) returns (r: Outcome<StoreError>)
      modifies this`state, logger
      ensures r.Pass? <==> Admits(old(state), now)
      ensures r.Fail? ==> r.error == DisabledError(cacheUri)
      ensures state == AfterCheckEnabled(old(state), now)
      ensures logger.entries == old(logger.entries) + CheckEnabledLogs(old(state), now, cacheUri)
    {
      if state.enabled {
        return Pass;
      }
      if now > state.disabledUntil {
        state := state.(enabled := true);
        logger.Log(Message(LvlDebug, ReenablingMessage(GetUri())));
        return Pass;
      }
      return Fail(DisabledError(GetUri()));
    }

    /** The HEAD request fileExists sends for `path`. */
    function HeadRequest(path: string): (r: Request)
      reads this
      ensures r.uri == MakeRequest(path).uri && r.head
    {
      Request(MakeRequest(path).uri, true)
    }

    /** fileExists(path): checked at `now`; a failure that is not a missing file disables
        the cache as of `failedAt`, when the transfer came back. */
    method FileExists(path: string, now: int, failedAt: int,
                      download: Request -> Outcome<TransferError>) returns (r: Result<bool, StoreError>)
      modifies this`state, logger
      ensures r == FileExistsResult(cacheUri, old(state), now, download(HeadRequest(path)))
      ensures state == FileExistsState(old(state), settings.tryFallback, now, failedAt, download(HeadRequest(path)))
      ensures logger.entries == old(logger.entries)
        + FileExistsLogs(cacheUri, old(state), settings.tryFallback, now, download(HeadRequest(path)))
    {
      var enabled := CheckEnabled(now);
      if enabled.Fail? {
        return Failure(enabled.error);
      }
      var request := MakeRequest(path);
      request := request.(head := true);
      var answer := download(request);
      if answer.Pass? {
        return Success(true);
      }
      if answer.error.kind == NotFound || answer.error.kind == Forbidden {
        return Success(false);
      }
      MaybeDisable(failedAt);
      return Failure(TransferFailed(answer.error));
    }

    /** getFile(path, sink): what the sink receives, or the error. */
    method GetFile(path: string, now: int,
                   httpGetFile: string -> Result<string, StoreError>,
                   run: RunOptions -> Result<string, StoreError>) returns (r: Result<string, StoreError>)
      modifies this`state, logger
      ensures r == GetFileResult(cacheUri, old(state), now, path, httpGetFile, run)
      ensures state == if HasSuffix(path, ".nar.gz") then AfterCheckEnabled(old(state), now) else old(state)
      ensures logger.entries == old(logger.entries)
        + if HasSuffix(path, ".nar.gz") then CheckEnabledLogs(old(state), now, cacheUri) else []
    {
      if !HasSuffix(path, ".nar.gz") {
        return httpGetFile(path);
      }
      :- CheckEnabled(now);
      var basePath := FileSystem.BaseNameOf(path);
      var options := RunOptions("sh", ["-c", ZsyncCommand(cacheUri, path, basePath)], "/tmp");
      r := run(options);
    }

    /** getFile(path): the contents, no contents for a missing file, or the error. */
    method GetFileContents(path: string, now: int,
                           httpGetFile: string -> Result<string, StoreError>,
                           run: RunOptions -> Result<string, StoreError>) returns (r: Result<Option<string>, StoreError>)
      modifies this`state, logger
      ensures r == NullOnMissing(GetFileResult(cacheUri, old(state), now, path, httpGetFile, run))
      ensures state == if HasSuffix(path, ".nar.gz") then AfterCheckEnabled(old(state), now) else old(state)
      ensures logger.entries == old(logger.entries)
        + if HasSuffix(path, ".nar.gz") then CheckEnabledLogs(old(state), now, cacheUri) else []
    {
      var contents := GetFile(path, now, httpGetFile, run);
      match contents {
        case Success(s) => return Success(Some(s));
        case Failure(e) =>
          if e.NoSuchBinaryCacheFile? {
            return Success(None);
          }
          return Failure(e);
      }
    }
  }

  /** Requests relative to a cache whose URI is itself a full URI are full URIs, so
      makeRequest leaves them alone the second time. */
  lemma MakeRequestIdempotent(store: ZsyncBinaryCacheStore, path: string)
    requires IsFullURI(store.cacheUri)
    ensures store.MakeRequest(store.MakeRequest(path).uri) == store.MakeRequest(path)
  {
    var uri := store.MakeRequest(path).uri;
    if !IsFullURI(path) {
      var c := store.cacheUri;
      if HasPrefix(c, "https://") {
        assert uri[..8] == c[..8];
      } else if HasPrefix(c, "http://") {
        assert uri[..7] == c[..7];
      } else {
        assert uri[..7] == c[..7];
      }
    }
  }
}
