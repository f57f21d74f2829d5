/** The interactive session: the global record list `COMMITS`, the
    `inspect` operation that fills it from `git status --porcelain`, and the
    `gita :>` prompt loop that dispatches on each input line. */
module Gita {
  import opened Porcelain

  /** The command words the prompt recognises, and everything else. */
  datatype Command = Inspect | Show | Commit | Push | Exit | Clear | Unknown

  /** The exact input line that selects a recognised command. */
  function Keyword(c: Command): (w: string)
    requires c != Unknown
  {
    match c
    case Inspect => "inspect"
    case Show => "show"
    case Commit => "commit"
    case Push => "push"
    case Exit => "exit"
    case Clear => "clear"
  }

  const Keywords: set<string> := {"inspect", "show", "commit", "push", "exit", "clear"}

  /** Which command an input line selects: the line must equal a command
      word exactly (no trimming, no case folding); anything else is
      reported as "No such command". */
  function Classify(input: string): (c: Command)
    ensures c == Unknown <==> input !in Keywords
    ensures c != Unknown ==> Keyword(c) == input
  {
    if input == "inspect" then Inspect
    else if input == "show" then Show
    else if input == "commit" then Commit
    else if input == "push" then Push
    else if input == "exit" then Exit
    else if input == "clear" then Clear
    else Unknown
  }

  /** Every recognised command is selected by its own word. */
  lemma ClassifyKeyword(c: Command)
    requires c != Unknown
    ensures Classify(Keyword(c)) == c
  {
  }

  /** The record list after one prompt, and whether the loop goes on. */
  datatype StepResult = StepResult(commits: seq<GitCommit>, proceed: bool)

  /** One iteration of the prompt loop. `status` is what
      `git status --porcelain` would print at that moment; it is read only
      by `inspect`. */
  function Step(commits: seq<GitCommit>, input: string, status: seq<string>): (r: StepResult)
    ensures r.proceed <==> input != "exit"
    ensures input == "inspect" ==> r.commits == commits + ParseAll(status)
    ensures input != "inspect" ==> r.commits == commits
  {
    match Classify(input)
    case Inspect => StepResult(commits + ParseAll(status), true)
    case Exit => StepResult(commits, false)
    case _ => StepResult(commits, true)
  }

  /** One line typed at the prompt, with the status output git would give
      if that line runs `inspect`. */
  datatype Prompt = Prompt(line: string, status: seq<string>)

  /** The end of a session: the final record list, whether `exit` ended
      it, and how many prompts were read. */
  datatype Outcome = Outcome(commits: seq<GitCommit>, exited: bool, read: nat)

  predicate IsExit(p: Prompt)
  {
    p.line == "exit"
  }

  /** The prompt loop over a finite sequence of input lines: it stops at
      the first `exit`, or when the input runs out. */
  function Run(commits: seq<GitCommit>, prompts: seq<Prompt>): (o: Outcome)
    ensures o.read <= |prompts|
    ensures o.exited ==> 0 < o.read
    decreases |prompts|
  {
    if prompts == [] then Outcome(commits, false, 0)
    else
      var s := Step(commits, prompts[0].line, prompts[0].status);
      if !s.proceed then Outcome(s.commits, true, 1)
      else
        var o := Run(s.commits, prompts[1..]);
        Outcome(o.commits, o.exited, o.read + 1)
  }

  /** In the model, where the status call always succeeds, `exit` is the
      only input that ends the loop: the session ends by
      `exit` exactly when some prompt is `exit`, the last prompt read is
      then that `exit`, no earlier prompt is one, and without an `exit`
      every prompt is read. */
  lemma {:induction false} RunStopsAtFirstExit(commits: seq<GitCommit>, prompts: seq<Prompt>)
    ensures var o := Run(commits, prompts);
            && (o.exited <==> exists i :: 0 <= i < |prompts| && IsExit(prompts[i]))
            && (o.exited ==> IsExit(prompts[o.read - 1]))
            && (!o.exited ==> o.read == |prompts|)
            && (forall i :: 0 <= i < o.read && (i < o.read - 1 || !o.exited) ==> !IsExit(prompts[i]))
    decreases |prompts|
  {
    if prompts != [] {
      var s := Step(commits, prompts[0].line, prompts[0].status);
      if s.proceed {
        RunStopsAtFirstExit(s.commits, prompts[1..]);
        assert forall i :: 1 <= i < |prompts| ==> prompts[i] == prompts[1..][i - 1];
      }
    }
  }

  /** The status lines of every `inspect` among `prompts`, concatenated in
      order. */
  function InspectedLines(prompts: seq<Prompt>): (lines: seq<string>)
  {
    if prompts == [] then []
    else (if prompts[0].line == "inspect" then prompts[0].status else []) + InspectedLines(prompts[1..])
  }

  lemma AppendAssoc<T>(a: seq<T>, b: seq<T>, c: seq<T>)
    ensures a + b + c == a + (b + c)
  {
  }

  lemma InspectedLinesCons(p: Prompt, rest: seq<Prompt>)
    ensures InspectedLines([p] + rest)
            == (if p.line == "inspect" then p.status else []) + InspectedLines(rest)
  {
    assert ([p] + rest)[0] == p;
    assert ([p] + rest)[1..] == rest;
  }

  /** Only `inspect` changes the record list: at the end of a session it
      holds the old records followed by the records parsed from each
      `inspect` that was read, in order. */
  lemma {:induction false} RunCommits(commits: seq<GitCommit>, prompts: seq<Prompt>)
    ensures Run(commits, prompts).commits
            == commits + ParseAll(InspectedLines(prompts[..Run(commits, prompts).read]))
    decreases |prompts|
  {
    var o := Run(commits, prompts);
    if prompts == [] {
      assert commits + ParseAll([]) == commits;
    } else {
      var p := prompts[0];
      var s := Step(commits, p.line, p.status);
      var own := if p.line == "inspect" then p.status else [];
      assert s.commits == commits + ParseAll(own);
      if !s.proceed {
        assert o == Outcome(s.commits, true, 1);
        assert prompts[..1] == [p] + [];
        InspectedLinesCons(p, []);
        assert InspectedLines(prompts[..1]) == own + [];
        assert own + [] == own;
      } else {
        var tail := Run(s.commits, prompts[1..]);
        assert o == Outcome(tail.commits, tail.exited, tail.read + 1);
        RunCommits(s.commits, prompts[1..]);
        var seen := prompts[1..][..tail.read];
        assert prompts[..o.read] == [p] + seen;
        InspectedLinesCons(p, seen);
        ParseAllAppend(own, InspectedLines(seen));
        var later := ParseAll(InspectedLines(seen));
        assert tail.commits == commits + ParseAll(own) + later;
        AppendAssoc(commits, ParseAll(own), later);
      }
    }
  }

  /** The records present when the session starts are never removed or
      changed: they stay a prefix of the list. */
  lemma RunKeepsPrefix(commits: seq<GitCommit>, prompts: seq<Prompt>)
    ensures commits <= Run(commits, prompts).commits
  {
    RunCommits(commits, prompts);
  }

  /** A session in which no prompt is `inspect` leaves the records as
      they were. */
  lemma RunWithoutInspect(commits: seq<GitCommit>, prompts: seq<Prompt>)
    requires forall i :: 0 <= i < |prompts| ==> prompts[i].line != "inspect"
    ensures Run(commits, prompts).commits == commits
  {
    var k := Run(commits, prompts).read;
    NoInspectedLines(prompts[..k]);
    RunCommits(commits, prompts);
    assert commits + [] == commits;
  }

  lemma {:induction false} NoInspectedLines(prompts: seq<Prompt>)
    requires forall i :: 0 <= i < |prompts| ==> prompts[i].line != "inspect"
    ensures InspectedLines(prompts) == []
    decreases |prompts|
  {
    if prompts != [] {
      NoInspectedLines(prompts[1..]);
    }
  }

  /** Input typed after `exit` is never read. */
  lemma {:induction false} RunIgnoresAfterExit(commits: seq<GitCommit>, prompts: seq<Prompt>, rest: seq<Prompt>)
    requires Run(commits, prompts).exited
    ensures Run(commits, prompts + rest) == Run(commits, prompts)
    decreases |prompts|
  {
    var p := prompts[0];
    assert (prompts + rest)[0] == p;
    var s := Step(commits, p.line, p.status);
    if s.proceed {
      assert (prompts + rest)[1..] == prompts[1..] + rest;
      RunIgnoresAfterExit(s.commits, prompts[1..], rest);
    }
  }

  /** `inspect` does not clear the list first, so running it twice on the
      same repository state records every changed file twice. */
  lemma InspectTwiceDuplicates(commits: seq<GitCommit>, status: seq<string>)
    ensures Run(commits, [Prompt("inspect", status), Prompt("inspect", status)])
            == Outcome(commits + ParseAll(status) + ParseAll(status), false, 2)
  {
    var p := Prompt("inspect", status);
    var once := commits + ParseAll(status);
    assert [p, p][1..] == [p];
    assert [p][1..] == [];
    assert Run(once + ParseAll(status), []) == Outcome(once + ParseAll(status), false, 0);
    assert Run(once, [p]) == Outcome(once + ParseAll(status), false, 1);
  }

  /** The process-wide state of the tool: the list `COMMITS`. */
  class Session {
    var commits: seq<GitCommit>

    constructor ()
      ensures commits == []
    {
      commits := [];
    }

    /** `gita_inspect`: appends one record per status line, in order,
        after the records already there. */
    method Inspect(statusLines: seq<string>)
      modifies this
      ensures commits == old(commits) + ParseAll(statusLines)
    {
      for i := 0 to |statusLines|
        invariant commits == old(commits) + ParseAll(statusLines[..i])
      {
        var line := statusLines[i];
        var status := Text.Strip(Text.Prefix(line, 2));
        if status == UntrackedCode {
          status := UntrackedLabel;
        }
        var path := Text.Strip(Text.Suffix(line, 3));
        var commit := GitCommit(filePath := path, diff := "", commitType := status, commitMsg := "");
        assert commit == ParseLine(line);
        ParseAllSnoc(statusLines, i);
        AppendAssoc(old(commits), ParseAll(statusLines[..i]), [commit]);
        commits := commits + [commit];
      }
      assert statusLines[..|statusLines|] == statusLines;
    }

    /** One pass of the `while(True)` loop in `main`: dispatch on the input
        line; `false` means the loop breaks. */
    method Dispatch(input: string, status: seq<string>) returns (proceed: bool)
      modifies this
      ensures StepResult(commits, proceed) == Step(old(commits), input, status)
    {
      proceed := true;
      if input == "inspect" {
        Inspect(status);
      } else if input == "show" {
        // gita_show only prints the table
      } else if input == "commit" {
        // prints "commiting"
      } else if input == "push" {
        // prints "pushing"
      } else if input == "exit" {
        proceed := false;
      } else if input == "clear" {
        // clears the terminal
      } else {
        // prints "No such command"
      }
    }

    /** `main`: prompts until `exit`; here the input is a finite sequence,
        and the loop also stops when it runs out. */
    method Loop(prompts: seq<Prompt>) returns (exited: bool, read: nat)
      modifies this
      ensures Outcome(commits, exited, read) == Run(old(commits), prompts)
    {
      exited, read := false, 0;
      while read < |prompts|
        invariant read <= |prompts|
        invariant var o := Run(commits, prompts[read..]);
                  Run(old(commits), prompts) == Outcome(o.commits, o.exited, o.read + read)
        decreases |prompts| - read
      {
        var p := prompts[read];
        assert prompts[read..][0] == p;
        assert prompts[read..][1..] == prompts[read + 1..];
        var proceed := Dispatch(p.line, p.status);
        read := read + 1;
        if !proceed {
          exited := true;
          return;
        }
      }
    }
  }
}
