/** The `Git_Commit` record and the parsing of `git status --porcelain`
    output (git's "Porcelain Format Version 1": a two-character `XY` status,
    a space, then the path) into such records. */
module Porcelain {
  import opened Text

  /** One changed file as the tool tracks it. */
  datatype GitCommit = GitCommit(
    filePath: string,
    diff: string,
    commitType: string,
    commitMsg: string)

  /** The status code git reports for a file it does not track. */
  const UntrackedCode: string := "??"

  /** The label the tool shows instead of that code. */
  const UntrackedLabel: string := "Untracked"

  /** The raw status of a line: its first two characters, stripped. */
  function StatusCode(line: string): (code: string)
    ensures |code| <= 2
    ensures Unpadded(code)
    ensures |line| >= 2 && !IsSpace(line[0]) && !IsSpace(line[1]) ==> code == line[..2]
  {
    var head := Prefix(line, 2);
    if |line| >= 2 && !IsSpace(line[0]) && !IsSpace(line[1]) then
      StripUnpadded(head);
      Strip(head)
    else
      Strip(head)
  }

  /** The status the record carries: `??` is shown as `Untracked`, every
      other code is kept verbatim. */
  function ResolveStatus(code: string): (status: string)
    ensures status == UntrackedLabel <==> code == UntrackedCode || code == UntrackedLabel
    ensures code != UntrackedCode ==> status == code
  {
    if code == UntrackedCode then UntrackedLabel else code
  }

  /** The path of a line: everything from index 3 on, stripped. */
  function PathOf(line: string): (path: string)
    ensures |path| <= |line| - 3 || (|line| < 3 && path == "")
    ensures Unpadded(path)
  {
    Strip(Suffix(line, 3))
  }

  /** The record built for one status line. */
  function ParseLine(line: string): (c: GitCommit)
    ensures c.diff == "" && c.commitMsg == ""
    ensures c.commitType == UntrackedLabel <==> StatusCode(line) == UntrackedCode
    ensures c.commitType != UntrackedLabel ==> c.commitType == StatusCode(line) && |c.commitType| <= 2
    ensures c.filePath == PathOf(line)
  {
    GitCommit(
      filePath := PathOf(line),
      diff := "",
      commitType := ResolveStatus(StatusCode(line)),
      commitMsg := "")
  }

  /** The records built for a sequence of status lines: one per line, in
      the same order. */
  function ParseAll(lines: seq<string>): (cs: seq<GitCommit>)
    ensures |cs| == |lines|
    ensures forall i :: 0 <= i < |lines| ==> cs[i] == ParseLine(lines[i])
  {
    if lines == [] then [] else [ParseLine(lines[0])] + ParseAll(lines[1..])
  }

  /** Parsing distributes over concatenation of the status output. */
  lemma ParseAllAppend(a: seq<string>, b: seq<string>)
    ensures ParseAll(a + b) == ParseAll(a) + ParseAll(b)
  {
    var l, r := ParseAll(a + b), ParseAll(a) + ParseAll(b);
    forall i | 0 <= i < |a + b| ensures l[i] == r[i] {
      if i < |a| { assert (a + b)[i] == a[i]; } else { assert (a + b)[i] == b[i - |a|]; }
    }
  }

  /** Parsing one more line appends one more record. */
  lemma ParseAllSnoc(lines: seq<string>, i: nat)
    requires i < |lines|
    ensures ParseAll(lines[..i + 1]) == ParseAll(lines[..i]) + [ParseLine(lines[i])]
  {
    assert lines[..i + 1] == lines[..i] + [lines[i]];
    ParseAllAppend(lines[..i], [lines[i]]);
  }

  /** A porcelain v1 line as git writes it: index status, work-tree status,
      a space, the path. */
  function PorcelainLine(x: char, y: char, path: string): (line: string)
    ensures |line| == |path| + 3
    ensures line[..2] == [x, y] && line[2] == ' ' && line[3..] == path
  {
    [x, y, ' '] + path
  }

  /** Parsing a well-formed line recovers its path (when git wrote it
      without surrounding whitespace) and its status, with `??` resolved;
      when neither status column is blank the code is the two columns. */
  lemma ParseWellFormed(x: char, y: char, path: string)
    requires Unpadded(path)
    ensures ParseLine(PorcelainLine(x, y, path)) ==
            GitCommit(path, "", ResolveStatus(Strip([x, y])), "")
    ensures !IsSpace(x) && !IsSpace(y) ==>
              ParseLine(PorcelainLine(x, y, path)).commitType
                == if [x, y] == UntrackedCode then UntrackedLabel else [x, y]
  {
    var line := PorcelainLine(x, y, path);
    assert Prefix(line, 2) == [x, y];
    assert Suffix(line, 3) == path;
    StripUnpadded(path);
    if !IsSpace(x) && !IsSpace(y) {
      StripUnpadded([x, y]);
    }
  }

  /** An untracked file: `?? todo.txt` becomes a record labelled
      `Untracked`. */
  lemma ParseUntrackedExample()
    ensures ParseLine("?? todo.txt") == GitCommit("todo.txt", "", "Untracked", "")
  {
    assert "?? todo.txt" == PorcelainLine('?', '?', "todo.txt");
    ParseWellFormed('?', '?', "todo.txt");
  }

  /** A file modified in the work tree only: the leading blank of ` M` is
      stripped from the status. */
  lemma ParseWorkTreeModifiedExample()
    ensures ParseLine(" M main.py") == GitCommit("main.py", "", "M", "")
  {
    var code: string := [' ', 'M'];
    assert code == [' '] + "M" + [];
    StripUnique([' '], "M", []);
    assert " M main.py" == PorcelainLine(' ', 'M', "main.py");
    ParseWellFormed(' ', 'M', "main.py");
  }
}
