# ModRuby request runner, modelled in Dafny

This project models the core of ModRuby's `lib/core/modruby/common.rb`. That
core is what runs one Ruby script or RHTML template for one web request. It
has three parts:

- **The exception classes.** `ModRuby::RuntimeError`, `ModRuby::Redirect` and
  `ModRuby::RequestTermination` each have their own `to_s`. Any other Ruby
  exception is modelled as a class name plus a message. Every exception
  carries its backtrace.
- **`ModRuby.backtrace(e, message)`.** It builds the HTML diagnostic report.
  The report is a fixed preamble, then the "Handled by" label, then the
  `"%-11s: %s\n"` header, then `"Stack:\n"` and one `"%3i. %s\n"` line per
  frame. Only the header line goes through the four-entry escape table
  (`& " < >`).
- **`Runner#setup`.** It computes the script's directory with
  `file[0..file.rindex('/')-1]` and changes into it. It then points
  `$stdout` and `@request.out` at a fresh `StringIO` buffer and runs the
  body. On any exception (`rescue Exception`) it writes
  `'<pre>' + backtrace` to the response and puts back the saved `$stdout`.
  Unless restoring `$stdout` itself raises, it then writes the buffer's
  contents.

Files and modules:

- `text.dfy` (`Text`): the escape table and its inverse, `sprintf` padding,
  and decimal numerals with their reader.
- `exceptions.dfy` (`Exceptions`): the exception kinds, `e.class` and
  `e.to_s`.
- `diagnostics.dfy` (`Diagnostics`): the report builder and a reader for
  reports.
- `paths.dfy` (`Paths`): the directory slice on line 111, with Ruby's
  `rindex` and inclusive-range semantics written out, and the intended
  directory name next to it.
- `runner.dfy` (`Runner`): `Runner#setup` over an immutable `World`.

The `World` record holds `$stdout`, the working directory, `dirs` (the
directories `FileUtils.cd` can enter), `files` (the paths that exist but are
not directories, which decide between `ENOTDIR` and `ENOENT`),
`@request.out`, the buffer counter and the list of strings given to
`@request.puts`. Every
run of `setup` also returns a trace of its steps. `Replay` is a separate
step-by-step semantics, and each run is proved to agree with replaying its
own trace. That is how the ordering of the steps is stated.

The body of `setup` is a parameter: `Completes(writes)` or
`Raises(writes, exception)`. The body is really `runScript` or `runRhtml`.
The backtrace that Ruby would attach to exceptions raised by `setup` itself
is a parameter too (`frames`).

Points where the code behaves differently from what a reader of it might
expect, and where the model follows the code:

- `$stdout` is restored only in the `rescue` clause (line 132), although the
  comment on line 131 says it is to be restored no matter what. After a
  successful body it stays on the buffer.
- `FileUtils.cd` is called without a block (line 111), so the working
  directory is never restored.
- `rescue Exception` also catches `RequestTermination` (a direct subclass of
  `Exception`, line 41) and `Redirect` (a subclass of
  `ModRuby::RuntimeError`, line 27). Both become diagnostics, like any
  other failure.
- The diagnostic is written before `$stdout` is restored. The buffer is then
  written on the failure path as well, not instead of it.
- `ModRuby.backtrace` calls `e.backtrace.each`. Exceptions that were raised
  always carry a backtrace array, so frames are modelled as a sequence. That
  sequence may be empty, and then no line follows `"Stack:\n"`.

## Model

| member | source | states |
|---|---|---|
| Exceptions.ToSReportsInnermost | lib/core/modruby/common.rb:11-50 | `to_s` of a `ModRuby::RuntimeError` is the text of the innermost wrapped exception, however deep the wrapping. `Redirect` gives its URL, `RequestTermination` gives `Request terminated`, and any other exception gives its message. |
| Exceptions.Innermost | lib/core/modruby/common.rb:21-23 | Following the wrapped-exception chain always ends at an exception that wraps nothing: a `Redirect`, a `RequestTermination` or a generic exception. |
| Text.EscapeSafe | lib/core/modruby/common.rb:57-64 | The escaped text contains no raw `<`, `>` or `"`. It has exactly as many newlines as the input, so newline-free text stays newline-free. |
| Text.EscapeKeepsNewlines | lib/core/modruby/common.rb:57-64 | Escaping neither adds nor removes a newline: the count in the output equals the count in the input. |
| Text.UnescapeEscape | lib/core/modruby/common.rb:58-64 | Reading the four entities back from the escaped text gives the original exactly. No character is lost or changed. |
| Text.EscapeIdentity | lib/core/modruby/common.rb:58-64 | Escaping leaves a text unchanged exactly when the text holds none of `& " < >`. This holds in both directions. |
| Text.EscapeGrows | lib/core/modruby/common.rb:58-64 | Any text holding one of the four characters gets strictly longer when escaped. |
| Text.EscapeAppend | lib/core/modruby/common.rb:55-64 | Escaping a concatenation is the concatenation of the escapes. So escaping the header line as a whole escapes its class and message parts independently, and keeps the final newline. |
| Text.PadRight | lib/core/modruby/common.rb:55 | `%-11s`: the result is `max(len, 11)` long and starts with the whole class name, which is never truncated. The rest is spaces. |
| Text.PadLeft | lib/core/modruby/common.rb:72 | `%3i` alignment: the result is `max(len, 3)` long and ends with the whole numeral. Everything before the numeral is spaces. |
| Text.NatToDecimal | lib/core/modruby/common.rb:72 | A frame number is rendered as at least one digit, with no leading zero unless the number is 0. |
| Text.DecimalRoundTrip | lib/core/modruby/common.rb:72 | Reading a rendered frame number back gives the number. |
| Diagnostics.HeaderShape | lib/core/modruby/common.rb:55 | The header is the full class name, then spaces up to column 11, then `": "`, then `to_s`. Its length is `max(len, 11) + 2 + len(to_s)`. |
| Diagnostics.Listing | lib/core/modruby/common.rb:70-74 | The frame listing is empty exactly when the backtrace is empty. |
| Diagnostics.ReportLayout | lib/core/modruby/common.rb:53-77 | The report starts with `"<pre>ModRuby BACKTRACE\n\nHandled by : "`, the label verbatim and a newline. Next comes the header line passed through the escape table, and nothing else. Then comes `"Stack:\n"`, and after it exactly the frame listing. With no frames the report ends at the heading. |
| Diagnostics.ListingRoundTrip | lib/core/modruby/common.rb:70-74 | The listing has one line per frame, numbered consecutively from 1 in backtrace order, right-aligned to width 3, with each frame copied verbatim. Reading the listing back recovers the frames exactly. |
| Diagnostics.ListingAmbiguousWithNewlines | lib/core/modruby/common.rb:70-74 | Frames are copied verbatim, so the one frame `"a\n  2. b"` gives the same listing as the two frames `"a"` and `"b"`. |
| Diagnostics.ReportRoundTrip | lib/core/modruby/common.rb:53-77 | Reading a report back with its label recovers exactly the formatted header line and the backtrace, whatever the class name and message contain, newlines included. So only the header was escaped, and the label and the frames were copied unchanged. |
| Diagnostics.ReportDetermines | lib/core/modruby/common.rb:53-77 | When no frame of either failure contains a newline, two failures whose reports under the same label are equal had the same header line and the same backtrace. |
| Diagnostics.MultiLineMessageRead | lib/core/modruby/common.rb:53-77 | A `SyntaxError` whose message spans two lines is read back with its whole header. |
| Diagnostics.ListingOpens | lib/core/modruby/common.rb:70-74 | When no frame contains a newline, the listing and every line of it open with a space or a digit, so never with the `S` of `"Stack:"`. |
| Diagnostics.NoHeadingAfter | lib/core/modruby/common.rb:69-74 | When the text after the `"Stack:\n"` heading and every line of it open with a space or a digit, as a listing of frames without newlines does, no second heading can start after it, so the last heading is the real one. |
| Diagnostics.ReportOpensWithPre | lib/core/modruby/common.rb:66 | Every report opens with `<pre>`. |
| Diagnostics.OwnClassesUnpadded | lib/core/modruby/common.rb:55 | ModRuby's own class names are longer than 11 characters, so their header is the class, `": "` and the text, with no padding. |
| Diagnostics.TerminationHeader | lib/core/modruby/common.rb:46-48 | A `RequestTermination` always has the header `ModRuby::RequestTermination: Request terminated`. |
| Diagnostics.RedirectHeader | lib/core/modruby/common.rb:35-37 | A `Redirect` has the header `ModRuby::Redirect: ` followed by its URL. |
| Diagnostics.ShortClassPadded | lib/core/modruby/common.rb:55 | `NameError` (9 characters) is followed by two spaces before the colon. The general case is Diagnostics.HeaderShape. |
| Diagnostics.BoomReport | lib/core/modruby/common.rb:53-77 | A generic error `RuntimeError` with message `boom` and one frame gives the line `RuntimeError: boom` and a single frame line `  1. x.rb:1`. |
| Diagnostics.FirstFrameLine | lib/core/modruby/common.rb:72 | The first frame line is two spaces, `1. `, the frame and a newline. |
| Paths.LastIndexOf | lib/core/modruby/common.rb:111 | `rindex('/')` gives the position of a slash with no slash after it, or nil when the path has no slash. |
| Paths.RangeFromStart | lib/core/modruby/common.rb:111 | `s[0..last]` is always a prefix of `s`. It is `last + 1` characters long for an in-range `last`, and it is all of `s` for `last = -1`. |
| Paths.ScriptDir | lib/core/modruby/common.rb:111 | The slice fails exactly when the path has no slash, with `NoMethodError` from `nil - 1`. With the last slash at `k > 0` the result is the first `k` characters, without that slash. With `k = 0` the result is the whole path. |
| Paths.Dirname | lib/core/modruby/common.rb:111 | The intended directory is everything before the last slash, or `/` when that slash is the first character. It never reaches past the last slash. |
| Paths.ScriptDirWrongOnlyAtRoot | lib/core/modruby/common.rb:111 | The code's slice and the intended directory differ exactly when the only slash is the leading one and the path is not `/` itself. This holds in both directions, for every path; without a slash both fail alike. |
| Paths.RootScriptKeepsWholePath | lib/core/modruby/common.rb:111 | For `/index.rb` the code computes `/index.rb` as the directory to enter, where `/` was meant. |
| Runner.ContentsAppend | lib/core/modruby/common.rb:117-136 | The buffer's text is the texts of all writes in write order: writing in two batches gives the first batch's text, then the second's. |
| Runner.ReplayAppend | lib/core/modruby/common.rb:106-137 | Replaying two runs of steps one after the other is the same as replaying their concatenation. |
| Runner.EarlyFailure | lib/core/modruby/common.rb:127-133 | The rescue clause reached before line 114 writes the diagnostic and then raises `TypeError` out of `setup`. The trace is exactly those two steps, the world differs only by the appended diagnostic, and the trace accounts for it. |
| Runner.Enter | lib/core/modruby/common.rb:111-125 | Entering the directory sets the cwd, and points `$stdout` and `@request.out` at the same fresh buffer. The trace is change directory, divert, run the body. |
| Runner.Setup | lib/core/modruby/common.rb:106-137 | If the slice fails or `cd` fails, the diagnostic is written and a `TypeError` escapes, with `$stdout`, `@request.out` and the cwd unchanged. Otherwise the cwd is the slice and `@request.out` is the fresh buffer. A completed body gets the buffer written once while `$stdout` stays on the buffer. A raising body gets the diagnostic, then `$stdout` restored, then the buffer, in that order. Earlier responses are never touched, and the trace accounts for the whole world. |
| Runner.Entered | lib/core/modruby/common.rb:111-136 | Once `cd` succeeds, the trace is change directory, divert, run the body, then the rescue clause's steps. The world ends with the new cwd, `@request.out` on the fresh buffer, the buffer counter advanced, and the diagnostic (if any) then the buffer appended to the response. `$stdout` is back where it was only when the body raised. |
| Runner.RescueEffect | lib/core/modruby/common.rb:127-136 | The teardown as written appends any diagnostic and then the buffer, and puts `$stdout` back only after a raised exception. |
| Runner.DiagnosticOpensTwice | lib/core/modruby/common.rb:129 | Every diagnostic `setup` writes starts with `<pre><pre>`. |
| Runner.ControlExceptionsBecomeDiagnostics | lib/core/modruby/common.rb:127-136 | A `RequestTermination` or a `Redirect` from the body is caught. It produces a diagnostic naming its class with `Request terminated` or the URL, and the output captured before it is still written. |
| Runner.SuccessLeavesStdoutDiverted | lib/core/modruby/common.rb:114-136 | After a completed body, `$stdout` is no longer what it was before the request. |
| Runner.StaleBufferRestored | lib/core/modruby/common.rb:114-132 | After a completed request, a raising second request restores `$stdout` to the first request's buffer, not to the console. |
| Runner.NoSlashEscapes | lib/core/modruby/common.rb:109-133 | For a path with no slash, the `NoMethodError` diagnostic is written and then a `TypeError` escapes from `setup`. |
| Runner.SetupRestoring | lib/core/modruby/common.rb:106-137 | In the intended protocol `setup` always returns and `$stdout` is back where it was. When the directory is entered, the diagnostic (if any) comes first and then the buffer. When it is not, the diagnostic alone is written and nothing else changes. |
| Runner.ClosingEffect | lib/core/modruby/common.rb:127-136 | The intended teardown restores `$stdout` and appends any diagnostic, then the buffer, to the response. |
| Runner.RestoringAgreesOnRaise | lib/core/modruby/common.rb:127-136 | Whenever the code gets past the directory change and the last slash is not the leading one, a raising body leaves the same world in the code's protocol and in the intended one. |
| Runner.ServePreservesStdout | lib/core/modruby/common.rb:106-137 | With the intended protocol, any sequence of requests leaves `$stdout` where it started. Each request's output comes after the earlier ones'. |

## Left out

- Writes through `$stdout` and through `@request.out` are not told apart: the body's writes are one sequence. Both names point at the same buffer after line 123, as Runner.Enter states, so the order of writes through either is the order in the buffer.
- Script paths are taken as absolute. `FileUtils.cd` would resolve a relative slice against the process's working directory, and since that directory is never restored, against the previous request's directory. The model's set of enterable directories does not depend on the working directory, so relative resolution is not modelled.
- `Generic(className, message)` does not stop a generic exception from carrying one of ModRuby's own class names, so some kinds that cannot occur are representable. A user subclass of `ModRuby::RuntimeError`, which would delegate `to_s` under its own class name, is not representable; only the three ModRuby classes are.
- Strings are sequences of Unicode characters, not Ruby strings of encoded bytes; escaping and padding count characters.
- Bodies that leave without an exception (`throw` to an outer `catch`, `exit!`) are not modelled; a body either completes or raises.
- `BlankSlate` (lines 86-97) removes methods with `undef_method` and runs arbitrary source with `Kernel::eval`. That has no static meaning, so the body is a parameter that writes strings and then returns or raises.
- `runScript`/`runRhtml` (lines 139-150): `File.read` and `ModRuby::RHTML::compile` are not part of this model. Their failures reach `setup` as a raising body.
- `StringIO` is modelled as the list of strings written to it. `FileUtils.cd` is modelled as membership in the world's set of enterable directories. The error classes and message texts of the Ruby runtime (`Errno::ENOENT`, `Errno::ENOTDIR`, `NoMethodError`, `TypeError`) are representative: the model uses their class names and the common wording of their messages.
- The `Request` object is not modelled. That covers `cgi['SCRIPT_FILENAME']` (the path is a parameter) and `puts` newline handling (each `puts` is one element of the response list).
- Concurrency is left out: two requests sharing the process-wide `$stdout` and working directory at the same time.
- A diagnostic that itself raises is not modelled. It could happen when an exception's `backtrace` is nil, when `to_s` raises, or when the response write fails.
- Arbitrary Ruby objects as `Redirect` URLs or `RuntimeError` payloads are left out. Their `to_s` is taken to be a string.
- Diagnostics.ListingRoundTrip: proved only for frames without a newline. The listing of `["a\n  2. b"]` is the listing of `["a", "b"]`, so no reader can do better (Diagnostics.ListingAmbiguousWithNewlines).
- Diagnostics.ReportRoundTrip: proved only when the frames contain no newline, for the reason given for Diagnostics.ListingRoundTrip. The class name and the message may contain anything.
- Diagnostics.ReportDetermines: proved only when no frame of either failure contains a newline, for the reason given for Diagnostics.ListingRoundTrip.
- Diagnostics.ListingOpens: proved only for frames without a newline. A frame `"a\nStack:"` puts a line opening with `S` into the listing.
- Diagnostics.NoHeadingAfter: assumes the text after the heading opens every line with a space or a digit, which Diagnostics.ListingOpens provides only for frames without a newline.
- Runner.RestoringAgreesOnRaise: covers only paths whose last slash is not the leading one. For a leading slash the two protocols enter different directories, as Paths.ScriptDirWrongOnlyAtRoot states.

## Findings

| source | as written | input that shows it | evidently intended | confidence | as-written member | corrected member |
|---|---|---|---|---|---|---|
| lib/core/modruby/common.rb:127-136 | `$stdout = previous` sits in the `rescue` clause, so a body that completes leaves `$stdout` on the request's buffer | any request whose body completes; the next failing request then restores the stale buffer | restore `$stdout` on every path (an `ensure`), as the comment on the restoring line asks | medium, not executed | Runner.SuccessLeavesStdoutDiverted | Runner.SetupRestoring |
| lib/core/modruby/common.rb:109-133 | a failure before line 114 reaches the rescue clause with `previous` still nil, so `$stdout = nil` raises `TypeError` out of `setup` after the diagnostic is written | `SCRIPT_FILENAME` = `index.rb` (no slash), or a directory `cd` cannot enter | write the diagnostic and return normally, leaving `$stdout` untouched | medium, not executed | Runner.NoSlashEscapes | Runner.SetupRestoring |
| lib/core/modruby/common.rb:111 | when the only slash is at index 0, `file[0..-1]` is the whole path, so `cd` targets the script file | `SCRIPT_FILENAME` = `/index.rb` | change into `/` | low, not executed | Paths.RootScriptKeepsWholePath | Paths.Dirname |
