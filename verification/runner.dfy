/** `Runner#setup`: change into the script's directory, divert `$stdout`
    into a fresh buffer shared with `@request.out`, run the body, and on
    any exception write the diagnostic and put `$stdout` back; finally
    write the buffer to the response. The process-wide state it touches is
    an immutable `World`, and every run also returns the trace of the
    steps it took, in order. */
module Runner {
  import opened Text
  import opened Exceptions
  import opened Diagnostics
  import opened Paths

  /** The handler label `setup` passes to the report builder. */
  const TurnstileLabel := "ModRuby Turnstile"

  /** An output stream: the process's original one, or the `StringIO`
      buffer created by some request (numbered in creation order). */
  datatype Channel = Console(name: string) | Capture(id: nat)

  datatype World = World(
    stdout: Channel,               // `$stdout`
    cwd: string,                   // the process working directory
    dirs: set<string>,             // paths `FileUtils.cd` can enter
    files: set<string>,            // paths that exist but are not directories
    requestOut: Option<Channel>,   // `@request.out`
    nextBuffer: nat,               // the number the next `StringIO.new` gets
    response: seq<string>)         // the arguments of `@request.puts`, in order

  /** Every buffer in use was created before `nextBuffer`. */
  predicate Valid(w: World) {
    && (w.stdout.Capture? ==> w.stdout.id < w.nextBuffer)
    && (w.requestOut.Some? && w.requestOut.value.Capture? ==> w.requestOut.value.id < w.nextBuffer)
  }

  /** What the block given to `setup` does: it writes strings to the
      diverted `$stdout` (or to `@request.out`, the same buffer), then
      either returns or raises. */
  datatype Body = Completes(writes: seq<string>) | Raises(writes: seq<string>, error: Exc)

  /** One observable step of `setup`. */
  datatype Event =
    | ChangeDir(dir: string)       // `FileUtils.cd(dir)` succeeded
    | Divert(buffer: Channel)      // `$stdout = out; @request.out = out`
    | Yield                        // the body ran
    | Puts(text: string)           // `@request.puts text`
    | RestoreStdout(to: Channel)   // `$stdout = previous`
    | Propagate(error: Exc)        // an exception leaves `setup`

  datatype Outcome = Returned | Escaped(error: Exc)

  datatype Run = Run(outcome: Outcome, world: World, trace: seq<Event>)

  /** The effect of one step on the world. */
  function Apply(w: World, ev: Event): World {
    match ev
    case ChangeDir(d) => w.(cwd := d)
    case Divert(ch) =>
      w.(stdout := ch, requestOut := Some(ch),
         nextBuffer := if ch.Capture? && ch.id >= w.nextBuffer then ch.id + 1 else w.nextBuffer)
    case Yield => w
    case Puts(t) => w.(response := w.response + [t])
    case RestoreStdout(ch) => w.(stdout := ch)
    case Propagate(_) => w
  }

  /** The world after a trace of steps. */
  function Replay(w: World, trace: seq<Event>): World
    decreases |trace|
  {
    if trace == [] then w else Replay(Apply(w, trace[0]), trace[1..])
  }

  /** Replaying two traces one after the other is replaying their concatenation. */
  lemma {:induction false} ReplayAppend(w: World, a: seq<Event>, b: seq<Event>)
    ensures Replay(w, a + b) == Replay(Replay(w, a), b)
    decreases |a|
  {
    if a != [] {
      assert (a + b)[0] == a[0] && (a + b)[1..] == a[1..] + b;
      ReplayAppend(Apply(w, a[0]), a[1..], b);
    } else {
      assert a + b == b;
    }
  }

  /** `out.string()`: everything written to the buffer, in write order. */
  function Contents(writes: seq<string>): string {
    if writes == [] then [] else writes[0] + Contents(writes[1..])
  }

  /** Writing in two batches leaves the batches' texts one after the other. */
  lemma {:induction false} ContentsAppend(a: seq<string>, b: seq<string>)
    ensures Contents(a + b) == Contents(a) + Contents(b)
  {
    if a != [] {
      assert (a + b)[0] == a[0] && (a + b)[1..] == a[1..] + b;
      ContentsAppend(a[1..], b);
    } else {
      assert a + b == b;
    }
  }

  /** What `@request.puts` receives for a caught exception. */
  function Diagnostic(e: Exc): string {
    "<pre>" + Backtrace(e, TurnstileLabel)
  }

  /** What `FileUtils.cd(dir)` raises when `dir` cannot be entered. */
  function ChdirError(w: World, dir: string, frames: seq<string>): Exc {
    if dir in w.files
    then Exc(Generic("Errno::ENOTDIR", "Not a directory @ dir_s_chdir - " + dir), frames)
    else Exc(Generic("Errno::ENOENT", "No such file or directory @ dir_s_chdir - " + dir), frames)
  }

  /** What `$stdout = nil` raises. */
  function NilStdoutError(frames: seq<string>): Exc {
    Exc(Generic("TypeError", "$stdout must have write method, NilClass given"), frames)
  }

  /** `setup` gets past `FileUtils.cd`: the path has a slash and the slice
      names an enterable directory. */
  predicate EntersDir(w: World, file: string) {
    HasSlash(file) && ScriptDir(file, []).value in w.dirs
  }

  /** The exception raised before `previous` and `out` are assigned, when
      `setup` does not get past `FileUtils.cd`. */
  function EarlyError(w: World, file: string, frames: seq<string>): Exc
    requires !EntersDir(w, file)
  {
    EnterError(w, ScriptDir(file, frames), frames)
  }

  /** The exception from computing the directory, or else from entering it. */
  function EnterError(w: World, dir: Result<string>, frames: seq<string>): Exc
    requires dir.Err? || dir.value !in w.dirs
  {
    match dir
    case Err(e) => e
    case Ok(d) => ChdirError(w, d, frames)
  }

  /** The intended `setup` gets past the directory change. */
  predicate EntersDirname(w: World, file: string) {
    HasSlash(file) && Dirname(file, []).value in w.dirs
  }

  /** The rescue clause reached before line 114: the diagnostic is written,
      then `$stdout = previous` assigns nil, which raises out of `setup`. */
  function EarlyFailure(w: World, e: Exc, frames: seq<string>): (r: Run)
    ensures Replay(w, r.trace) == r.world
    ensures r.trace == [Puts(Diagnostic(e)), Propagate(NilStdoutError(frames))]
    ensures r.outcome == Escaped(NilStdoutError(frames))
    ensures r.world == w.(response := w.response + [Diagnostic(e)])
  {
    var d := Diagnostic(e);
    var trace := [Puts(d), Propagate(NilStdoutError(frames))];
    ReplayTwo(w, trace);
    Run(Escaped(NilStdoutError(frames)), w.(response := w.response + [d]), trace)
  }

  /** `Runner#setup` as written. `frames` is the backtrace Ruby records for
      exceptions raised by `setup` itself. It serves both the early error
      from line 111 and the `TypeError` from line 132, although Ruby would
      give the two different first frames; only the early error's frames
      reach the response, so the sharing changes nothing written. */
  function Setup(w: World, file: string, body: Body, frames: seq<string>): (r: Run)
    // the trace accounts for every change to the world
    ensures Replay(w, r.trace) == r.world
    ensures Valid(w) ==> Valid(r.world)
    // earlier responses are untouched
    ensures |w.response| <= |r.world.response| && r.world.response[..|w.response|] == w.response
    // failing to enter the directory: diagnostic, then a TypeError escapes;
    // `$stdout`, `@request.out` and the cwd are unchanged
    ensures !EntersDir(w, file) ==>
      && r.outcome == Escaped(NilStdoutError(frames))
      && r.world == w.(response := w.response + [Diagnostic(EarlyError(w, file, frames))])
    // otherwise the cwd is the slice, and `$stdout` and `@request.out` are
    // the same fresh buffer until a rescue restores `$stdout`
    ensures EntersDir(w, file) ==>
      && r.outcome == Returned
      && r.world.cwd == ScriptDir(file, frames).value
      && r.world.requestOut == Some(Capture(w.nextBuffer))
      && |r.trace| >= 3
      && r.trace[..3] == [ChangeDir(r.world.cwd), Divert(Capture(w.nextBuffer)), Yield]
    // a completed body: the buffer is written once and `$stdout` stays diverted
    ensures EntersDir(w, file) && body.Completes? ==>
      && r.world.stdout == Capture(w.nextBuffer)
      && r.world.response == w.response + [Contents(body.writes)]
      && |r.trace| == 4
    // a raising body: diagnostic first, then `$stdout` restored, then the
    // buffer captured so far
    ensures EntersDir(w, file) && body.Raises? ==>
      && r.world.stdout == w.stdout
      && r.world.response == w.response + [Diagnostic(body.error), Contents(body.writes)]
      && r.trace[3..] == [Puts(Diagnostic(body.error)), RestoreStdout(w.stdout), Puts(Contents(body.writes))]
  {
    if !EntersDir(w, file) then
      EarlyFailure(w, EarlyError(w, file, frames), frames)
    else
      Entered(w, ScriptDir(file, frames).value, body)
  }

  /** Lines 111-135 once `FileUtils.cd(dir)` succeeded: the buffer is made
      and shared, the body runs, and the rescue clause as written tears
      down. Only a raising body gets `$stdout` back. */
  function Entered(w: World, dir: string, body: Body): (r: Run)
    ensures Replay(w, r.trace) == r.world
    ensures r.outcome == Returned
    ensures r.trace == [ChangeDir(dir), Divert(Capture(w.nextBuffer)), Yield] + Rescue(w.stdout, body)
    ensures r.world == w.(cwd := dir,
                          stdout := if body.Raises? then w.stdout else Capture(w.nextBuffer),
                          requestOut := Some(Capture(w.nextBuffer)),
                          nextBuffer := w.nextBuffer + 1,
                          response := w.response + Shown(body))
  {
    var (diverted, opening) := Enter(w, dir);
    var closing := Rescue(w.stdout, body);
    ReplayAppend(w, opening, closing);
    RescueEffect(diverted, w.stdout, body);
    Run(Returned, Replay(diverted, closing), opening + closing)
  }

  /** The teardown as written: the buffer is written after a completed
      body; a raised exception is written as a diagnostic, `$stdout` is put
      back, and then the buffer is written. */
  function Rescue(previous: Channel, body: Body): seq<Event> {
    var text := Contents(body.writes);
    match body
    case Completes(_) => [Puts(text)]
    case Raises(_, e) => [Puts(Diagnostic(e)), RestoreStdout(previous), Puts(text)]
  }

  /** The teardown as written appends what `Shown` lists, and puts `$stdout`
      back only after a raised exception. */
  lemma RescueEffect(w: World, previous: Channel, body: Body)
    ensures Replay(w, Rescue(previous, body))
         == w.(stdout := if body.Raises? then previous else w.stdout,
               response := w.response + Shown(body))
  {
    var t := Rescue(previous, body);
    if body.Completes? {
      assert t[1..] == [];
      assert Replay(Apply(w, t[0]), []) == Apply(w, t[0]);
    } else {
      ReplayThree(w, t);
    }
  }

  /** Lines 111-125: enter `dir`, divert `$stdout` and `@request.out` into
      a fresh buffer, and run the body. */
  function Enter(w: World, dir: string): (r: (World, seq<Event>))
    ensures r.0 == w.(cwd := dir, stdout := Capture(w.nextBuffer),
                      requestOut := Some(Capture(w.nextBuffer)), nextBuffer := w.nextBuffer + 1)
    ensures r.1 == [ChangeDir(dir), Divert(Capture(w.nextBuffer)), Yield]
    ensures Replay(w, r.1) == r.0
  {
    var buffer := Capture(w.nextBuffer);
    var opening := [ChangeDir(dir), Divert(buffer), Yield];
    var w1 := Apply(w, ChangeDir(dir));
    var w2 := Apply(w1, Divert(buffer));
    assert opening[1..] == [Divert(buffer), Yield] && opening[1..][1..] == [Yield];
    assert Replay(w2, [Yield]) == w2 by { assert [Yield][1..] == []; }
    (w2, opening)
  }

  lemma ReplayThree(w: World, t: seq<Event>)
    requires |t| == 3
    ensures Replay(w, t) == Apply(Apply(Apply(w, t[0]), t[1]), t[2])
  {
    ReplayTwo(Apply(w, t[0]), t[1..]);
  }

  lemma ReplayTwo(w: World, t: seq<Event>)
    requires |t| == 2
    ensures Replay(w, t) == Apply(Apply(w, t[0]), t[1])
  {
    var w1, w2 := Apply(w, t[0]), Apply(Apply(w, t[0]), t[1]);
    assert t[1..][0] == t[1] && t[1..][1..] == [];
    assert Replay(w2, []) == w2;
    assert Replay(w1, t[1..]) == w2;
  }

  /** Every report `setup` writes starts with two `<pre>` tags: its own and
      the report's. */
  lemma DiagnosticOpensTwice(e: Exc)
    ensures |Diagnostic(e)| >= 10 && Diagnostic(e)[..10] == "<pre><pre>"
  {
    ReportOpensWithPre(e, TurnstileLabel);
    var b := Backtrace(e, TurnstileLabel);
    assert Diagnostic(e)[..10] == "<pre>" + b[..5];
  }

  /** `rescue Exception` also catches `RequestTermination` and `Redirect`:
      both become a diagnostic naming the class and the fixed text or the
      URL, and the output captured before them is still written. */
  lemma ControlExceptionsBecomeDiagnostics(w: World, file: string, writes: seq<string>, e: Exc, frames: seq<string>)
    requires EntersDir(w, file)
    requires e.kind.RequestTermination? || e.kind.Redirect?
    ensures var r := Setup(w, file, Raises(writes, e), frames);
      && r.outcome == Returned
      && r.world.response == w.response + [Diagnostic(e), Contents(writes)]
      && (e.kind.RequestTermination? ==>
            Header(e) == "ModRuby::RequestTermination: Request terminated\n")
      && (e.kind.Redirect? ==> Header(e) == "ModRuby::Redirect: " + e.kind.url + "\n")
  {
    if e.kind.RequestTermination? {
      TerminationHeader(e.frames);
    } else {
      RedirectHeader(e.kind.url, e.frames);
    }
  }

  /** A completed request leaves `$stdout` on its own buffer. */
  lemma SuccessLeavesStdoutDiverted(w: World, file: string, writes: seq<string>, frames: seq<string>)
    requires Valid(w) && EntersDir(w, file)
    ensures Setup(w, file, Completes(writes), frames).world.stdout != w.stdout
  {
  }

  /** After a completed request, the next request's rescue clause "restores"
      `$stdout` to the previous request's buffer, not to the console. */
  lemma StaleBufferRestored(w: World, file: string, first: seq<string>, second: Body, frames: seq<string>)
    requires Valid(w) && w.stdout.Console? && EntersDir(w, file)
    requires second.Raises?
    ensures
      var w1 := Setup(w, file, Completes(first), frames).world;
      var w2 := Setup(w1, file, second, frames).world;
      w2.stdout == Capture(w.nextBuffer) && w2.stdout != w.stdout
  {
    var w1 := Setup(w, file, Completes(first), frames).world;
    assert w1.dirs == w.dirs && w1.cwd == ScriptDir(file, frames).value;
    assert EntersDir(w1, file);
  }

  /** A script path without a slash: the diagnostic is written, and then a
      `TypeError` escapes from `setup`. */
  lemma NoSlashEscapes(w: World, body: Body, frames: seq<string>)
    ensures Setup(w, "index.rb", body, frames).outcome == Escaped(NilStdoutError(frames))
    ensures Setup(w, "index.rb", body, frames).world.response
         == w.response + [Diagnostic(NilMinusError(frames))]
  {
    assert !HasSlash("index.rb") by {
      forall j | 0 <= j < |"index.rb"| ensures "index.rb"[j] != '/' { }
    }
  }

  // ---------------------------------------------------------------------------
  // The protocol as evidently intended
  // ---------------------------------------------------------------------------

  /** `setup` with `$stdout` restored on every path once it was diverted
      (an `ensure` clause), the buffer written only once it exists, and the
      directory taken from `Dirname`. */
  function SetupRestoring(w: World, file: string, body: Body, frames: seq<string>): (r: Run)
    ensures Replay(w, r.trace) == r.world
    ensures r.outcome == Returned
    ensures r.world.stdout == w.stdout
    ensures Valid(w) ==> Valid(r.world)
    ensures |w.response| <= |r.world.response| && r.world.response[..|w.response|] == w.response
    ensures !EntersDirname(w, file) ==>
      r.world == w.(response := w.response + [Diagnostic(EnterError(w, Dirname(file, frames), frames))])
    ensures EntersDirname(w, file) ==>
      && r.world.cwd == Dirname(file, frames).value
      && r.world.requestOut == Some(Capture(w.nextBuffer))
      && r.world.response == w.response + Shown(body)
  {
    var entered := Dirname(file, frames);
    if !EntersDirname(w, file) then
      var d := Diagnostic(EnterError(w, entered, frames));
      Run(Returned, w.(response := w.response + [d]), [Puts(d)])
    else
      var (diverted, opening) := Enter(w, entered.value);
      var closing := Closing(w.stdout, body);
      ReplayAppend(w, opening, closing);
      ClosingEffect(diverted, w.stdout, body);
      Run(Returned, Replay(diverted, closing), opening + closing)
  }

  /** What the intended `setup` writes once the body has run: the
      diagnostic for a raised exception, then the buffer in either case. */
  function Shown(body: Body): seq<string> {
    match body
    case Completes(writes) => [Contents(writes)]
    case Raises(writes, e) => [Diagnostic(e), Contents(writes)]
  }

  /** The intended `ensure`-style teardown: any diagnostic, then `$stdout`
      put back, then the buffer. */
  function Closing(previous: Channel, body: Body): seq<Event> {
    var text := Contents(body.writes);
    match body
    case Completes(_) => [RestoreStdout(previous), Puts(text)]
    case Raises(_, e) => [Puts(Diagnostic(e)), RestoreStdout(previous), Puts(text)]
  }

  /** The intended teardown puts `$stdout` back and appends what `Shown`
      lists, and changes nothing else. */
  lemma ClosingEffect(w: World, previous: Channel, body: Body)
    ensures Replay(w, Closing(previous, body)) == w.(stdout := previous, response := w.response + Shown(body))
  {
    var t := Closing(previous, body);
    if body.Completes? {
      ReplayTwo(w, t);
    } else {
      ReplayThree(w, t);
    }
  }

  /** Where the code as written does get past the directory change and the
      last slash is not the leading one, a raising body is handled exactly
      as the intended protocol handles it. */
  lemma RestoringAgreesOnRaise(w: World, file: string, writes: seq<string>, e: Exc, frames: seq<string>)
    requires EntersDir(w, file) && !LastSlashAt(file, 0)
    ensures Setup(w, file, Raises(writes, e), frames).world
         == SetupRestoring(w, file, Raises(writes, e), frames).world
  {
    ScriptDirWrongOnlyAtRoot(file, frames);
  }

  /** One request handled by the server: script path, body, backtrace. */
  datatype ScriptRequest = ScriptRequest(file: string, body: Body, frames: seq<string>)

  /** Requests handled one after another. */
  function Serve(w: World, requests: seq<ScriptRequest>): World
    decreases |requests|
  {
    if requests == [] then w
    else
      var q := requests[0];
      Serve(SetupRestoring(w, q.file, q.body, q.frames).world, requests[1..])
  }

  /** With `$stdout` restored on every path, no sequence of requests ever
      leaves `$stdout` anywhere but where it started, and each request's
      output is appended after the earlier ones'. */
  lemma {:induction false} ServePreservesStdout(w: World, requests: seq<ScriptRequest>)
    ensures Serve(w, requests).stdout == w.stdout
    ensures Valid(w) ==> Valid(Serve(w, requests))
    ensures |w.response| <= |Serve(w, requests).response|
    ensures Serve(w, requests).response[..|w.response|] == w.response
    decreases |requests|
  {
    if requests != [] {
      var q := requests[0];
      var w1 := SetupRestoring(w, q.file, q.body, q.frames).world;
      ServePreservesStdout(w1, requests[1..]);
      var wn := Serve(w, requests);
      assert wn.response[..|w1.response|] == w1.response;
      assert wn.response[..|w.response|] == w1.response[..|w.response|];
    }
  }
}
