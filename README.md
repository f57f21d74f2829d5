# gita: status inspection and the command prompt, in Dafny

This project models the working core of `main.py` in git-ai-helper. The
program is an early prototype of an interactive commit assistant, and the
model covers its two pieces of real logic:

- **`gita_inspect`**. It reads the output of `git status --porcelain`, which
  is git's "Porcelain Format Version 1": a two-character `XY` status, a
  space, then the path. It turns each line into a `Git_Commit` record and
  appends the records, in order, to the global list `COMMITS`. The status is
  the line's first two characters, stripped, with `??` shown as
  `Untracked`. The path is everything from column 3 on, stripped. `diff`
  and `commit_msg` start empty.
- **`main`**. It runs the `gita :>` prompt loop. Each input line is compared
  exactly with `inspect`, `show`, `commit`, `push`, `exit` and `clear`.
  Anything else is reported as "No such command". Only `inspect` changes
  `COMMITS`, and `exit` is the only input that leaves the loop.

Files:

- `text.dfy`, module `Text`: Python's clamped slices `s[:n]` and `s[n:]`,
  and `str.strip()` built from `lstrip` and `rstrip`. It proves what strip
  keeps and what it drops, that the result is unique, and that strip is
  idempotent.
- `porcelain.dfy`, module `Porcelain`: the `GitCommit` record, the
  per-line parse (`StatusCode`, `ResolveStatus`, `PathOf`, `ParseLine`) and
  `ParseAll`, which maps it over the status output. It also proves what
  parsing a well-formed porcelain line gives back.
- `gita.dfy`, module `Gita`: command classification and one-step dispatch
  (`Classify`, `Step`). `Run` is the prompt loop over a finite sequence of
  input lines, with lemmas about it. The class `Session` holds the state
  the program keeps in the global `COMMITS`. Its method `Inspect` is the
  append loop of `gita_inspect`, `Dispatch` is one pass of the `while(True)`
  body, and `Loop` is `main`. Each method is proved against the matching
  function.

Inputs the program gets from outside become parameters:

- The output of `REPO.git.status("--porcelain").splitlines()` is a
  `seq<string>`, one element per line.
- Each line typed at the prompt is a `Prompt`. A `Prompt` carries the typed
  text and the status output git would give at that moment. It is read only
  when the command is `inspect`.

The record list is a `seq<GitCommit>` field. `Inspect` reassigns it.

## Model

| member | source | states |
|---|---|---|
| `Text.Prefix` | main.py:33 | `line[:2]` is a prefix of the line, of length 2, or the whole line when it is shorter |
| `Text.Suffix` | main.py:40 | `line[3:]` is the characters from index 3 on, in order, and is empty when the line is shorter than 3 |
| `Text.TrimLeft` | main.py:33 | the `lstrip` half of `strip`: the result is no longer than the input and does not start with whitespace |
| `Text.TrimRight` | main.py:33 | the `rstrip` half of `strip`: the result is a prefix of the input and does not end with whitespace |
| `Text.Strip` | main.py:33 | `strip()` never lengthens a string and leaves no whitespace at either end; whitespace is `Text.IsSpace`: tab, LF, VT, FF, CR, 0x1C to 0x1F and space, the ASCII characters `str.isspace()` accepts |
| `Text.TrimLeftSplit` | main.py:33 | the input is some all-whitespace prefix followed by the `lstrip` result |
| `Text.TrimRightSplit` | main.py:33 | the input is the `rstrip` result followed by some all-whitespace suffix |
| `Text.StripSplit` | main.py:40 | every input is whitespace, then `Strip(s)`, then whitespace, so strip removes only whitespace, and only at the ends |
| `Text.TrimLeftUnique` | main.py:33 | `lstrip` of whitespace followed by a string that does not start with whitespace is exactly that string |
| `Text.TrimRightUnique` | main.py:33 | `rstrip` of a string that does not end with whitespace, followed by whitespace, is exactly that string |
| `Text.StripUnique` | main.py:40 | for any split of the input as whitespace + `m` + whitespace with `m` unpadded, `Strip` returns `m`; with StripSplit this characterises strip completely |
| `Text.StripUnpadded` | main.py:40 | stripping a string with no whitespace at its ends returns it unchanged |
| `Text.StripIdempotent` | main.py:33 | stripping twice gives the same result as stripping once |
| `Porcelain.StatusCode` | main.py:33 | the raw status is at most two characters with no surrounding whitespace; when neither status column is blank it is exactly the first two characters |
| `Porcelain.ResolveStatus` | main.py:35-37 | `??` becomes `Untracked`, and every other code is kept verbatim |
| `Porcelain.PathOf` | main.py:40 | the path is no longer than the line minus its three status columns, is empty for a line shorter than 3, and has no surrounding whitespace |
| `Porcelain.ParseLine` | main.py:32-48 | the new record has an empty `diff` and `commitMsg` and the stripped path; its `commitType` is `Untracked` exactly when the stripped code is `??`, and otherwise it is that code, at most 2 characters long |
| `Porcelain.ParseAll` | main.py:30-48 | one record per status line, the i-th record parsed from the i-th line |
| `Porcelain.ParseAllAppend` | main.py:30-51 | parsing two pieces of status output one after the other gives the records of both, in order |
| `Porcelain.PorcelainLine` | main.py:28 | the porcelain v1 layout: status columns at 0 and 1, a space at 2, the path from 3 on |
| `Porcelain.ParseWellFormed` | main.py:33-48 | parsing a well-formed line recovers its unpadded path and its stripped, resolved status; when both status columns are non-blank the type is those two characters, or `Untracked` for `??` |
| `Porcelain.ParseUntrackedExample` | main.py:36-37 | `?? todo.txt` becomes a record with path `todo.txt` and type `Untracked` |
| `Porcelain.ParseWorkTreeModifiedExample` | main.py:33 | ` M main.py` becomes a record with type `M`: the blank index column is stripped |
| `Gita.Classify` | main.py:78-97 | an input is unrecognised exactly when it is none of the six command words; a recognised input is exactly its command's word |
| `Gita.ClassifyKeyword` | main.py:78-93 | each of the six command words selects its own command |
| `Gita.Step` | main.py:76-97 | the loop goes on exactly when the input is not `exit`; `inspect` appends the parsed status lines, and every other input leaves the records unchanged |
| `Gita.Run` | main.py:74-97 | a session reads at most the prompts it is given, and a session that ends by `exit` has read at least one prompt |
| `Gita.RunStopsAtFirstExit` | main.py:74-91 | the session ends by `exit` exactly when some prompt is `exit`; it then stops at the first one, and without one it reads every prompt |
| `Gita.RunCommits` | main.py:78-79 | after a session the records are the old ones followed by the records parsed from the status of each `inspect` read, in order |
| `Gita.RunKeepsPrefix` | main.py:51 | the records present at the start are never removed or modified |
| `Gita.RunWithoutInspect` | main.py:81-97 | a session with no `inspect` prompt ends with the records it started with |
| `Gita.RunIgnoresAfterExit` | main.py:90-91 | input that follows an `exit` has no effect on the session |
| `Gita.InspectTwiceDuplicates` | main.py:23-25 | two `inspect`s on the same status output record every file twice, because the list is never cleared first |
| `Gita.Session.constructor` | main.py:12 | the record list starts empty |
| `Gita.Session.Inspect` | main.py:21-53 | the new list is the old list followed by the parsed status lines, one record per line, in order |
| `Gita.Session.Dispatch` | main.py:76-97 | one pass of the loop body changes the records and returns the continue flag exactly as `Step` does |
| `Gita.Session.Loop` | main.py:72-97 | the final records, whether `exit` ended the loop, and the number of prompts read are exactly `Run`'s |

## Left out

- `Repo(".")` and `REPO.git.status("--porcelain")` (main.py:9, 28) are calls into GitPython and git. The status output comes in as a sequence of lines, so `splitlines()` is not modelled either.
- `REPO.git.status("--porcelain")` (main.py:28) is assumed to succeed on every `inspect`. In the program it can raise after start-up, for example a GitPython `GitCommandError` when `git status` itself fails during the session, say after `.git` has been removed. Nothing catches that exception, so it ends `main` without `exit`, and `COMMITS` is unchanged because the raise comes before the append loop. `Run` and `Session.Loop` do not model this way out of the loop. Outside a repository the program never gets this far: `Repo(".")` at main.py:9 already fails when the module loads, so `main` never starts.
- `import openai` (main.py:4) is unused. Commit-message generation is not part of this program.
- `gita_show` (main.py:55-63) only prints a table of the records. `show` is modelled as a command that leaves the records unchanged.
- `gita_commit` (main.py:66-70) is a stub whose body is `1 + 1`, and the `commit` and `push` branches (main.py:84-88) only print. They are modelled as commands with no effect. No staging, commit, uncommit or push behaviour exists in the code, so none is modelled.
- `os.system('clear')` (main.py:94), the "No such command" message and every other `print` are terminal output only.
- `input()` (main.py:76) becomes a finite sequence of prompts. When the sequence runs out, `Run` and `Session.Loop` stop with `exited == false`. This stands for end of input; the Python program would raise `EOFError` there instead.
- Text.Strip: whitespace is the ASCII part of Python's `str.isspace()`: tab, line feed, vertical tab, form feed, carriage return, the separators 0x1C to 0x1F, and space. Non-ASCII whitespace such as U+00A0 or U+2028 is not stripped in the model.
