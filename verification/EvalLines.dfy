/** What `agent start` prints for the shell to evaluate, and how `agent stop` finds the process
    again. */
module EvalLines {
  import opened Wrappers
  import opened Sequences
  import Decimal

  // ---------------------------------------------------------------- printing

  function SocketLine(socket: string): string {
    "SSH_AUTH_SOCK=" + socket + "; export SSH_AUTH_SOCK;"
  }

  function PidLine(pid: nat): string {
    "SSH_AGENT_PID=" + Decimal.Render(pid) + "; export SSH_AGENT_PID;"
  }

  /** The Bourne-shell lines. */
  function EmitEval(socket: string, pid: nat): string {
    SocketLine(socket) + "\n" + (PidLine(pid) + "\n" + ("echo Agent pid " + Decimal.Render(pid) + ";" + "\n"))
  }

  // ----------------------------------------------------------------- reading

  function IndexOf(s: string, c: char): nat
    ensures IndexOf(s, c) <= |s|
    ensures forall i :: 0 <= i < IndexOf(s, c) ==> s[i] != c
    ensures IndexOf(s, c) < |s| ==> s[IndexOf(s, c)] == c
  {
    if s == "" || s[0] == c then 0 else 1 + IndexOf(s[1..], c)
  }

  function WithoutCarriageReturn(line: string): string {
    if line != "" && line[|line| - 1] == '\r' then line[..|line| - 1] else line
  }

  /** The lines of a text: ended by a newline, the last one possibly by the end. */
  function Lines(s: string): seq<string>
    decreases |s|
  {
    if s == "" then []
    else
      var n := IndexOf(s, '\n');
      if n == |s| then [WithoutCarriageReturn(s)] else [WithoutCarriageReturn(s[..n])] + Lines(s[n + 1..])
  }

  predicate IsBlank(c: char) {
    c == ' ' || c == '\t' || c == '\n' || c == '\r'
  }

  function TrimStart(s: string): string {
    if s != "" && IsBlank(s[0]) then TrimStart(s[1..]) else s
  }

  function TrimEnd(s: string): string {
    if s != "" && IsBlank(s[|s| - 1]) then TrimEnd(s[..|s| - 1]) else s
  }

  function Trim(s: string): string {
    TrimEnd(TrimStart(s))
  }

  function LeadingDigits(s: string): string {
    if s != "" && Decimal.IsDigit(s[0]) then [s[0]] + LeadingDigits(s[1..]) else ""
  }

  const PID_ASSIGNMENT: string := "SSH_AGENT_PID="

  predicate AssignsPid(line: string) {
    PID_ASSIGNMENT <= Trim(line)
  }

  /** The digits a line assigns to the agent-pid variable. */
  function PidDigits(line: string): string
    requires AssignsPid(line)
  {
    LeadingDigits(Trim(line)[|PID_ASSIGNMENT|..])
  }

  /** What the variable holds once all lines have been read as assignments: a later one replaces an
      earlier one. Quotes and further commands are not interpreted. */
  function AssignedPid(lines: seq<string>): Option<string> {
    if lines == [] then None
    else if AssignsPid(lines[|lines| - 1]) then Some(PidDigits(lines[|lines| - 1]))
    else AssignedPid(lines[..|lines| - 1])
  }

  /** What a reader finds that stops at the first line assigning the variable. */
  function FirstAssignedPid(lines: seq<string>): Option<string> {
    if lines == [] then None
    else if AssignsPid(lines[0]) then Some(PidDigits(lines[0]))
    else FirstAssignedPid(lines[1..])
  }

  /** A path as the standard library compares paths: repeated and trailing separators do not count,
      nor does "." except in front of a relative path. */
  datatype Path = Path(absolute: bool, names: seq<string>)

  datatype StopError = BadVariable(text: string) | NoPidFile | CannotRead(path: Path) | BadPidFile(path: Path)

  /** `resolve_daemon_pid`: the variable wins over any pid file. */
  function ResolveDaemonPid(
    variable: Option<string>, pidFile: Option<Path>, fallback: Option<Path>, files: map<Path, string>)
    : Result<int, StopError>
  {
    match variable
    case Some(text) =>
      (match Decimal.ParseI32(Trim(text))
       case Some(pid) => Ok(pid)
       case None => Err(BadVariable(text)))
    case None =>
      var path := if pidFile.Some? then pidFile else fallback;
      if path.None? then Err(NoPidFile)
      else if path.value !in files then Err(CannotRead(path.value))
      else
        match Decimal.ParseI32(Trim(files[path.value]))
        case Some(pid) => Ok(pid)
        case None => Err(BadPidFile(path.value))
  }

  // -------------------------------------------------------------- round trip

  lemma {:induction false} IndexOfFirst(s: string, rest: string, c: char)
    requires c !in s
    ensures IndexOf(s + [c] + rest, c) == |s|
  {
    if s == "" {
      assert s + [c] + rest == [c] + rest;
    } else {
      IndexOfFirst(s[1..], rest, c);
      assert (s + [c] + rest)[1..] == s[1..] + [c] + rest;
    }
  }

  lemma LinesStep(line: string, rest: string)
    requires '\n' !in line
    ensures Lines(line + "\n" + rest) == [WithoutCarriageReturn(line)] + Lines(rest)
  {
    var all := line + "\n" + rest;
    IndexOfFirst(line, rest, '\n');
    assert all[..|line|] == line && all[|line| + 1..] == rest;
  }

  lemma FirstLine(line: string, rest: string)
    requires '\n' !in line && line != "" && line[|line| - 1] != '\r'
    ensures Lines(line + "\n" + rest) == [line] + Lines(rest)
  {
    LinesStep(line, rest);
  }

  lemma {:induction false} DigitsLead(digits: string, rest: string)
    requires Decimal.AllDigits(digits) && (rest == "" || !Decimal.IsDigit(rest[0]))
    ensures LeadingDigits(digits + rest) == digits
  {
    if digits == "" {
      assert digits + rest == rest;
    } else {
      DigitsLead(digits[1..], rest);
      assert (digits + rest)[1..] == digits[1..] + rest;
      assert digits == [digits[0]] + digits[1..];
    }
  }

  lemma NotTrimmed(s: string)
    requires s != "" && !IsBlank(s[0]) && !IsBlank(s[|s| - 1])
    ensures Trim(s) == s
  {
  }

  lemma DigitsNotBlank(pid: nat)
    ensures Trim(Decimal.Render(pid)) == Decimal.Render(pid)
    ensures '\n' !in Decimal.Render(pid)
  {
    var d := Decimal.Render(pid);
    assert Decimal.IsDigit(d[0]) && Decimal.IsDigit(d[|d| - 1]);
    NotTrimmed(d);
  }

  lemma SocketLineAssignsNothing(socket: string)
    requires '\n' !in socket
    ensures var l := SocketLine(socket); '\n' !in l && l != "" && l[|l| - 1] == ';' && !AssignsPid(l)
  {
    var l := SocketLine(socket);
    assert l[0] == 'S' && l[5] == 'U' && l[|l| - 1] == ';';
    NotTrimmed(l);
    assert PID_ASSIGNMENT[5] == 'G';
  }

  lemma Assignment(digits: string, tail: string)
    requires digits != "" && Decimal.AllDigits(digits)
    requires tail != "" && tail[0] == ';' && tail[|tail| - 1] == ';'
    ensures var l := PID_ASSIGNMENT + (digits + tail);
            && Trim(l) == l && PID_ASSIGNMENT <= l && LeadingDigits(l[|PID_ASSIGNMENT|..]) == digits
  {
    hide LeadingDigits;
    var l := PID_ASSIGNMENT + (digits + tail);
    assert l[0] == 'S' && l[|l| - 1] == ';';
    NotTrimmed(l);
    assert l[|PID_ASSIGNMENT|..] == digits + tail;
    DigitsLead(digits, tail);
  }

  lemma PidLineAssigns(pid: nat)
    ensures var l := PidLine(pid);
            '\n' !in l && l != "" && l[|l| - 1] == ';' && AssignsPid(l) && PidDigits(l) == Decimal.Render(pid)
  {
    hide Trim, LeadingDigits, Decimal.Render;
    var l, d, tail := PidLine(pid), Decimal.Render(pid), "; export SSH_AGENT_PID;";
    DigitsNotBlank(pid);
    assert l == PID_ASSIGNMENT + (d + tail);
    Assignment(d, tail);
  }

  function EchoLine(pid: nat): string {
    "echo Agent pid " + Decimal.Render(pid) + ";"
  }

  lemma EchoAssignsNothing(pid: nat)
    ensures var l := EchoLine(pid); '\n' !in l && l != "" && l[|l| - 1] == ';' && !AssignsPid(l)
  {
    DigitsNotBlank(pid);
    var l := EchoLine(pid);
    assert l[0] == 'e' && l[|l| - 1] == ';';
    NotTrimmed(l);
    assert PID_ASSIGNMENT[0] == 'S';
  }

  /** The lines of two texts, the first ending its last line, are those of one and then those of
      the other. */
  lemma {:induction false} LinesAppend(x: string, rest: string)
    requires x == "" || x[|x| - 1] == '\n'
    ensures Lines(x + rest) == Lines(x) + Lines(rest)
    decreases |x|
  {
    hide Lines, WithoutCarriageReturn;
    NoLines();
    if x == "" {
      assert x + rest == rest;
    } else {
      var n := IndexOf(x, '\n');
      var line, tail := x[..n], x[n + 1..];
      LinesAppend(tail, rest);
      LinesStep(line, tail);
      LinesStep(line, tail + rest);
      assert x == line + "\n" + tail;
      assert x + rest == line + "\n" + (tail + rest);
    }
  }

  /** The last two printed lines, whatever stands before them. */
  lemma TrailingLines(socket: string, pid: nat)
    ensures Lines(EmitEval(socket, pid)) == Lines(SocketLine(socket) + "\n") + [PidLine(pid), EchoLine(pid)]
  {
    hide Lines, SocketLine, PidLine, Decimal.Render, AssignsPid, PidDigits;
    var rest := PidLine(pid) + "\n" + (EchoLine(pid) + "\n");
    PidLineAssigns(pid);
    EchoAssignsNothing(pid);
    assert EmitEval(socket, pid) == (SocketLine(socket) + "\n") + rest;
    LinesAppend(SocketLine(socket) + "\n", rest);
    FirstLine(PidLine(pid), EchoLine(pid) + "\n");
    assert EchoLine(pid) + "\n" + "" == EchoLine(pid) + "\n";
    FirstLine(EchoLine(pid), "");
    NoLines();
  }

  lemma NoLines()
    ensures Lines("") == []
  {
  }

  /** Read as lines, what is printed assigns the printed pid, for every socket path, even one that spans
      lines or contains an assignment of its own. */
  lemma EvalLinesAssignPid(socket: string, pid: nat)
    ensures AssignedPid(Lines(EmitEval(socket, pid))) == Some(Decimal.Render(pid))
  {
    hide Lines, SocketLine, PidLine, EchoLine, EmitEval, Decimal.Render, AssignsPid, PidDigits;
    TrailingLines(socket, pid);
    PidLineAssigns(pid);
    EchoAssignsNothing(pid);
    var front := Lines(SocketLine(socket) + "\n");
    var lines := front + [PidLine(pid), EchoLine(pid)];
    assert lines[..|lines| - 1] == front + [PidLine(pid)];
  }

  /** A reader that stops at the first assignment finds it too, for every socket path on one line. */
  lemma FirstAssignmentIsPid(socket: string, pid: nat)
    requires '\n' !in socket
    ensures FirstAssignedPid(Lines(EmitEval(socket, pid))) == Some(Decimal.Render(pid))
  {
    hide Lines, SocketLine, PidLine, EchoLine, EmitEval, Decimal.Render, AssignsPid, PidDigits;
    TrailingLines(socket, pid);
    PidLineAssigns(pid);
    SocketLineAssignsNothing(socket);
    assert SocketLine(socket) + "\n" + "" == SocketLine(socket) + "\n";
    FirstLine(SocketLine(socket), "");
    NoLines();
    var lines := [SocketLine(socket)] + [PidLine(pid), EchoLine(pid)];
    assert lines[1..] == [PidLine(pid), EchoLine(pid)];
  }

  /** Stop undoes start: with the variable set as printed, the process signalled is the one
      printed, exactly for the pids below 2^31; a larger one is refused, not misread. */
  lemma StopFindsPrintedPid(
    socket: string, pid: nat, pidFile: Option<Path>, fallback: Option<Path>, files: map<Path, string>)
    ensures var r := ResolveDaemonPid(AssignedPid(Lines(EmitEval(socket, pid))), pidFile, fallback, files);
            if pid <= Decimal.I32_MAX then r == Ok(pid) else r.Err?
  {
    hide Lines, EmitEval, AssignedPid, Trim, Decimal.Value;
    EvalLinesAssignPid(socket, pid);
    DigitsNotBlank(pid);
    ParseRenderedPid(pid);
  }

  lemma ParseRenderedPid(pid: nat)
    ensures Decimal.ParseI32(Decimal.Render(pid)) == if pid <= Decimal.I32_MAX then Some(pid) else None
  {
    Decimal.ParseRender(pid, Decimal.I32_MAX);
    assert Decimal.IsDigit(Decimal.Render(pid)[0]);
  }

  /** What a line exports under a name, if it assigns and exports just that. */
  function Exported(line: string, name: string): Option<string> {
    var front, back := name + "=", "; export " + name + ";";
    if |line| >= |front| + |back| && front <= line && line[|line| - |back|..] == back
    then Some(line[|front|..|line| - |back|]) else None
  }

  lemma ExportedMiddle(name: string, value: string)
    ensures Exported(name + "=" + value + "; export " + name + ";", name) == Some(value)
  {
    var front, back := name + "=", "; export " + name + ";";
    var line := name + "=" + value + "; export " + name + ";";
    assert line == front + value + back;
    assert line[..|front|] == front && line[|front|..|line| - |back|] == value;
  }

  /** For every socket path on one line, three lines are printed: the first exports that path as the
      agent's socket, the second the pid, and the third says it. */
  lemma PrintedLines(socket: string, pid: nat)
    requires '\n' !in socket
    ensures var lines := Lines(EmitEval(socket, pid));
            && |lines| == 3
            && Exported(lines[0], "SSH_AUTH_SOCK") == Some(socket)
            && Exported(lines[1], "SSH_AGENT_PID") == Some(Decimal.Render(pid))
            && lines[2] == "echo Agent pid " + Decimal.Render(pid) + ";"
  {
    hide Lines, EmitEval, Decimal.Render, AssignsPid, Exported;
    TrailingLines(socket, pid);
    SocketLineAssignsNothing(socket);
    assert SocketLine(socket) + "\n" + "" == SocketLine(socket) + "\n";
    FirstLine(SocketLine(socket), "");
    NoLines();
    ExportedMiddle("SSH_AUTH_SOCK", socket);
    ExportedMiddle("SSH_AGENT_PID", Decimal.Render(pid));
    assert SocketLine(socket) == "SSH_AUTH_SOCK" + "=" + socket + "; export " + "SSH_AUTH_SOCK" + ";";
    assert PidLine(pid) == "SSH_AGENT_PID" + "=" + Decimal.Render(pid) + "; export " + "SSH_AGENT_PID" + ";";
  }

  predicate Blanks(s: string) {
    forall i :: 0 <= i < |s| ==> s[i] == ' ' || s[i] == '\t' || s[i] == '\n' || s[i] == '\r'
  }

  /** Trimming takes blanks from both ends and nothing else, and leaves none there. */
  lemma TrimIsMiddle(s: string) returns (front: string, back: string)
    ensures Blanks(front) && Blanks(back) && s == front + Trim(s) + back
    ensures Trim(s) != "" ==> !Blanks(Trim(s)[..1]) && !Blanks(Trim(s)[|Trim(s)| - 1..])
  {
    hide Trim;
    front := StartTrimmed(s);
    back := EndTrimmed(TrimStart(s));
    TrimmedBothEnds(s);
    assert front + (Trim(s) + back) == front + Trim(s) + back;
  }

  lemma TrimmedBothEnds(s: string)
    ensures Trim(s) == TrimEnd(TrimStart(s))
    ensures Trim(s) != "" ==> TrimStart(s) != "" && Trim(s)[0] == TrimStart(s)[0]
  {
    var back := EndTrimmed(TrimStart(s));
    if Trim(s) != "" {
      assert TrimStart(s) == Trim(s) + back;
    }
  }

  lemma {:induction false} StartTrimmed(s: string) returns (front: string)
    ensures Blanks(front) && s == front + TrimStart(s)
    ensures TrimStart(s) != "" ==> !IsBlank(TrimStart(s)[0])
  {
    front := "";
    if s != "" && IsBlank(s[0]) {
      var more := StartTrimmed(s[1..]);
      front := [s[0]] + more;
      assert s == [s[0]] + s[1..];
    }
  }

  lemma {:induction false} EndTrimmed(s: string) returns (back: string)
    ensures Blanks(back) && s == TrimEnd(s) + back
    ensures TrimEnd(s) != "" ==> !IsBlank(TrimEnd(s)[|TrimEnd(s)| - 1])
  {
    back := "";
    if s != "" && IsBlank(s[|s| - 1]) {
      var more := EndTrimmed(s[..|s| - 1]);
      back := more + [s[|s| - 1]];
      assert s == s[..|s| - 1] + [s[|s| - 1]];
      assert TrimEnd(s) + (more + [s[|s| - 1]]) == (TrimEnd(s) + more) + [s[|s| - 1]];
    }
  }

  /** How stop finds the pid: from the variable whenever it is set; otherwise from the pid file named,
      whatever the default one holds; and only with none named from the default one. The text, less
      blanks, must denote a signed 32-bit integer, and each failure says what was wrong. */
  lemma StopResolves(
    variable: Option<string>, pidFile: Option<Path>, fallback: Option<Path>, files: map<Path, string>, n: int)
    ensures var r := ResolveDaemonPid(variable, pidFile, fallback, files);
            var path := if pidFile.Some? then pidFile else fallback;
            && (variable.Some? ==>
                  && (r == Ok(n) <==> Decimal.DenotesI32(Trim(variable.value), n))
                  && (r.Err? ==> r.error == BadVariable(variable.value)))
            && (variable.None? && path.Some? && path.value in files ==>
                  && (r == Ok(n) <==> Decimal.DenotesI32(Trim(files[path.value]), n))
                  && (r.Err? ==> r.error == BadPidFile(path.value)))
            && (variable.None? && path.Some? && path.value !in files ==> r == Err(CannotRead(path.value)))
            && (variable.None? && path.None? ==> r == Err(NoPidFile))
  {
    hide Trim, Decimal.ParseI32, Decimal.DenotesI32;
    if variable.Some? {
      Decimal.ParseI32Iff(Trim(variable.value), n);
    } else {
      var path := if pidFile.Some? then pidFile else fallback;
      if path.Some? && path.value in files {
        Decimal.ParseI32Iff(Trim(files[path.value]), n);
      }
    }
  }

  // -------------------------------------------------------------------- paths

  /** The names in a path, from left to right; `leading` says whether a "." in front counts. */
  function Names(path: string, leading: bool): seq<string>
    decreases |path|
  {
    if path == "" then []
    else
      var n := IndexOf(path, '/');
      var rest := if n == |path| then [] else Names(path[n + 1..], false);
      if n == 0 || (path[..n] == "." && !leading) then rest else [path[..n]] + rest
  }

  predicate IsAbsolute(path: string) {
    path != "" && path[0] == '/'
  }

  function ParsePath(path: string): Path {
    Path(IsAbsolute(path), Names(path, !IsAbsolute(path)))
  }

  /** The path without its last name; a root and the empty path have no parent. */
  function Parent(p: Path): Option<Path> {
    if p.names == [] then None else Some(p.(names := p.names[..|p.names| - 1]))
  }

  function Child(p: Path, name: string): Path {
    p.(names := p.names + [name])
  }

  /** Appends a relative path to a path. */
  function Join(base: string, name: string): string {
    if base == "" || base[|base| - 1] == '/' then base + name else base + "/" + name
  }

  /** A path as the operating system resolves it in a working directory. */
  function Absolute(cwd: string, path: string): string {
    if IsAbsolute(path) then path else Join(cwd, path)
  }

  predicate Plain(name: string) {
    name != "" && name != "." && '/' !in name
  }

  /** What one piece between separators contributes. */
  function Piece(piece: string, leading: bool): seq<string> {
    if piece == "" || (piece == "." && !leading) then [] else [piece]
  }

  lemma NamesStep(piece: string, tail: string, leading: bool)
    requires '/' !in piece
    ensures Names(piece + "/" + tail, leading) == Piece(piece, leading) + Names(tail, false)
    ensures Names(piece, leading) == Piece(piece, leading)
  {
    var all := piece + "/" + tail;
    IndexOfFirst(piece, tail, '/');
    assert all[..|piece|] == piece && all[|piece| + 1..] == tail;
    assert IndexOf(piece, '/') == |piece| && piece[..|piece|] == piece;
  }

  lemma NoNames(leading: bool)
    ensures Names("", leading) == []
  {
  }

  lemma {:induction false} NamesAppend(x: string, y: string, leading: bool)
    requires x != "" && x[|x| - 1] == '/'
    ensures Names(x + y, leading) == Names(x, leading) + Names(y, false)
    decreases |x|
  {
    hide Names, Piece;
    var n := IndexOf(x, '/');
    var piece, tail := x[..n], x[n + 1..];
    NamesStep(piece, tail, leading);
    NamesStep(piece, tail + y, leading);
    assert x == piece + "/" + tail && x + y == piece + "/" + (tail + y);
    if tail == "" {
      NoNames(false);
      assert tail + y == y;
    } else {
      NamesAppend(tail, y, false);
      Regroup3(Piece(piece, leading), Names(tail, false), Names(y, false));
    }
  }

  lemma {:induction false} TrailingSeparator(x: string, leading: bool)
    requires x != ""
    ensures Names(x + "/", leading) == Names(x, leading)
    decreases |x|
  {
    hide Names, Piece;
    NoNames(false);
    var n := IndexOf(x, '/');
    if n < |x| {
      var piece, tail := x[..n], x[n + 1..];
      NamesStep(piece, tail, leading);
      NamesStep(piece, tail + "/", leading);
      assert x == piece + "/" + tail && x + "/" == piece + "/" + (tail + "/");
      if tail == "" {
        NamesStep("", "", false);
        assert tail + "/" == "" + "/" + "";
        EmptyPiece();
      } else {
        TrailingSeparator(tail, false);
      }
    } else {
      NamesStep(x, "", leading);
      assert x + "/" + "" == x + "/";
    }
  }

  lemma EmptyPiece()
    ensures Piece("", false) == []
  {
  }

  lemma PlainNames(name: string, leading: bool)
    requires Plain(name)
    ensures Names(name, leading) == [name]
  {
    NamesStep(name, "", leading);
  }

  /** Joining a plain name adds it to the names. */
  lemma JoinIsChild(base: string, name: string)
    requires Plain(name)
    ensures ParsePath(Join(base, name)) == Child(ParsePath(base), name)
    ensures IsAbsolute(Join(base, name)) == IsAbsolute(base)
  {
    hide Names;
    if base == "" {
      assert base + name == name;
      PlainNames(name, true);
      NoNames(true);
    } else {
      PlainNames(name, false);
      var dir := if base[|base| - 1] == '/' then base else base + "/";
      NamesAppend(dir, name, !IsAbsolute(base));
      TrailingSeparator(base, !IsAbsolute(base));
    }
  }

  function Separator(base: string): string {
    if base == "" || base[|base| - 1] == '/' then "" else "/"
  }

  lemma JoinText(base: string, name: string)
    ensures Join(base, name) == base + (Separator(base) + name)
  {
  }

  lemma SeparatorOfJoin(base: string, name: string)
    requires name != ""
    ensures Separator(Join(base, name)) == Separator(name)
  {
    assert Join(base, name)[|Join(base, name)| - 1] == name[|name| - 1];
  }

  lemma JoinJoin(cwd: string, dir: string, name: string)
    requires dir != ""
    ensures Join(cwd, Join(dir, name)) == Join(Join(cwd, dir), name)
  {
    JoinText(dir, name);
    JoinText(cwd, dir);
    JoinText(cwd, Join(dir, name));
    JoinText(Join(cwd, dir), name);
    SeparatorOfJoin(cwd, dir);
    hide Join, Separator;
    var c, d := Separator(cwd), Separator(dir);
    assert cwd + (c + (dir + (d + name))) == cwd + (c + dir) + (d + name);
  }

  lemma AbsoluteJoin(cwd: string, dir: string, name: string)
    requires Plain(name)
    ensures Absolute(cwd, Join(dir, name)) == Join(Absolute(cwd, dir), name)
  {
    if dir == "" {
      assert Join(dir, name) == name;
      assert Join(Join(cwd, dir), name) == Join(cwd, name);
    } else {
      assert IsAbsolute(Join(dir, name)) == IsAbsolute(dir);
      JoinJoin(cwd, dir, name);
    }
  }

  // ----------------------------------------------------------- default paths

  /** The environment the default paths depend on. */
  datatype Environment = Environment(runtimeDir: Option<string>, tmpDir: Option<string>, user: Option<string>)

  /** The directory of the default socket, which the environment alone decides. */
  function DefaultDirectory(env: Environment): string {
    match env.runtimeDir
    case Some(runtime) => runtime
    case None =>
      var tmp := if env.tmpDir.Some? then env.tmpDir.value else "/tmp";
      var user := if env.user.Some? then env.user.value else "default";
      Join(tmp, "gitway-agent-" + user)
  }

  function DefaultSocketName(env: Environment, pid: nat): string {
    if env.runtimeDir.Some? then "gitway-agent." + Decimal.Render(pid) + ".sock" else "agent." + Decimal.Render(pid)
  }

  function DefaultSocketPath(env: Environment, pid: nat): string {
    Join(DefaultDirectory(env), DefaultSocketName(env, pid))
  }

  /** The default pid file stands beside the socket. */
  function DefaultPidPath(socket: string): Option<Path> {
    match Parent(ParsePath(socket))
    case None => None
    case Some(dir) => Some(Child(dir, "gitway-agent.pid"))
  }

  lemma SocketNamesArePlain(env: Environment, pid: nat)
    ensures Plain(DefaultSocketName(env, pid))
  {
    assert forall i :: 0 <= i < |Decimal.Render(pid)| ==> Decimal.IsDigit(Decimal.Render(pid)[i]);
  }

  /** In one environment and working directory the default pid file is the same for every process:
      it stands in the default directory. So a later stop looks where start wrote. */
  lemma DefaultPidPathSharedByProcesses(env: Environment, cwd: string, pid: nat)
    ensures DefaultPidPath(Absolute(cwd, DefaultSocketPath(env, pid))) ==
            Some(Child(ParsePath(Absolute(cwd, DefaultDirectory(env))), "gitway-agent.pid"))
  {
    hide Names, DefaultSocketName, DefaultDirectory, Absolute, Join;
    SocketNamesArePlain(env, pid);
    AbsoluteJoin(cwd, DefaultDirectory(env), DefaultSocketName(env, pid));
    JoinIsChild(Absolute(cwd, DefaultDirectory(env)), DefaultSocketName(env, pid));
  }

  /** The directory of the default socket: the runtime directory if there is one, and otherwise the
      user's own under the temporary directory, "/tmp" and "default" standing in for what is unset. */
  lemma DefaultDirectories(runtime: string, tmp: string, user: string)
    requires '/' !in user
    ensures forall t, u :: DefaultDirectory(Environment(Some(runtime), t, u)) == runtime
    ensures ParsePath(DefaultDirectory(Environment(None, Some(tmp), Some(user)))) ==
            Child(ParsePath(tmp), "gitway-agent-" + user)
    ensures DefaultDirectory(Environment(None, None, Some(user))) ==
            DefaultDirectory(Environment(None, Some("/tmp"), Some(user)))
    ensures forall t :: DefaultDirectory(Environment(None, t, None)) ==
                        DefaultDirectory(Environment(None, t, Some("default")))
  {
    hide Join, ParsePath;
    JoinIsChild(tmp, "gitway-agent-" + user);
  }

  /** Two processes of one environment bind different default sockets, in the directory it names. */
  lemma DefaultSocketsDiffer(env: Environment, x: nat, y: nat)
    ensures DefaultSocketPath(env, x) == DefaultSocketPath(env, y) ==> x == y
    ensures DirectlyIn(ParsePath(DefaultSocketPath(env, x)), ParsePath(DefaultDirectory(env)))
  {
    hide Names, Join, DefaultSocketName, DefaultDirectory, ParsePath;
    SocketNamesArePlain(env, x);
    JoinIsChild(DefaultDirectory(env), DefaultSocketName(env, x));
    if DefaultSocketPath(env, x) == DefaultSocketPath(env, y) {
      JoinTellsName(DefaultDirectory(env), DefaultSocketName(env, x), DefaultSocketName(env, y));
      NamesTellPids(env, x, y);
    }
  }

  lemma JoinTellsName(base: string, a: string, b: string)
    requires Join(base, a) == Join(base, b)
    ensures a == b
  {
    JoinText(base, a);
    JoinText(base, b);
    hide Join, Separator;
    var front := base + Separator(base);
    assert base + (Separator(base) + a) == front + a && base + (Separator(base) + b) == front + b;
    assert a == (front + a)[|front|..] && b == (front + b)[|front|..];
  }

  lemma NamesTellPids(env: Environment, x: nat, y: nat)
    requires DefaultSocketName(env, x) == DefaultSocketName(env, y)
    ensures x == y
  {
    var front, back := if env.runtimeDir.Some? then "gitway-agent." else "agent.",
                       if env.runtimeDir.Some? then ".sock" else "";
    var a, b := Decimal.Render(x), Decimal.Render(y);
    hide Decimal.Render;
    assert DefaultSocketName(env, x) == front + a + back && DefaultSocketName(env, y) == front + b + back;
    assert |a| == |b|;
    assert a == (front + a + back)[|front|..|front| + |a|] && b == (front + b + back)[|front|..|front| + |b|];
    assert Decimal.Value(a) == Decimal.Value(b);
  }

  /** The path names something directly in a directory. */
  ghost predicate DirectlyIn(path: Path, dir: Path) {
    exists name :: path == Child(dir, name)
  }

  /** With an explicit socket, the pid file start writes by default is the one that a stop by any
      process looks for if and only if the socket lies directly in the directory that stop's
      environment names. */
  lemma CustomSocketFoundIff(env: Environment, startDir: string, socket: string, stopDir: string, stopper: nat)
    ensures DefaultPidPath(Absolute(startDir, socket)) ==
            DefaultPidPath(Absolute(stopDir, DefaultSocketPath(env, stopper))) <==>
            DirectlyIn(ParsePath(Absolute(startDir, socket)), ParsePath(Absolute(stopDir, DefaultDirectory(env))))
  {
    hide Names, DefaultSocketPath, DefaultDirectory, Absolute, ParsePath;
    DefaultPidPathSharedByProcesses(env, stopDir, stopper);
    var path, dir := ParsePath(Absolute(startDir, socket)), ParsePath(Absolute(stopDir, DefaultDirectory(env)));
    if path.names != [] {
      var name := path.names[|path.names| - 1];
      assert path.names == path.names[..|path.names| - 1] + [name];
      if path.(names := path.names[..|path.names| - 1]) == dir {
        assert path == Child(dir, name);
      }
      if Child(Parent(path).value, "gitway-agent.pid") == Child(dir, "gitway-agent.pid") {
        ChildInjective(Parent(path).value, dir, "gitway-agent.pid");
      }
    }
  }

  lemma ChildInjective(p: Path, q: Path, name: string)
    requires Child(p, name) == Child(q, name)
    ensures p == q
  {
    assert p.names == Child(p, name).names[..|p.names|] && q.names == Child(q, name).names[..|q.names|];
  }

  /** The file system once a daemon has written its pid file, if it has one. */
  function WithPidFile(files: map<Path, string>, path: Option<Path>, text: string): map<Path, string> {
    if path.Some? then files[path.value := text] else files
  }

  /** Stop without the variable: where no other pid file stands in the default directory, it
      resolves the pid that a start with an explicit socket wrote if and only if that socket lies
      directly in the default directory and the pid is below 2^31. */
  lemma StopByPidFileIff(
    env: Environment, startDir: string, socket: string, stopDir: string, stopper: nat, pid: nat, text: string,
    files: map<Path, string>)
    requires Trim(text) == Decimal.Render(pid)
    requires Child(ParsePath(Absolute(stopDir, DefaultDirectory(env))), "gitway-agent.pid") !in files
    ensures var written := WithPidFile(files, DefaultPidPath(Absolute(startDir, socket)), text);
            var looked := DefaultPidPath(Absolute(stopDir, DefaultSocketPath(env, stopper)));
            ResolveDaemonPid(None, None, looked, written) == Ok(pid) <==>
              && DirectlyIn(ParsePath(Absolute(startDir, socket)), ParsePath(Absolute(stopDir, DefaultDirectory(env))))
              && pid <= Decimal.I32_MAX
  {
    hide Trim, Names, DefaultSocketPath, DefaultDirectory, Absolute, ParsePath, DirectlyIn, Decimal.ParseI32;
    CustomSocketFoundIff(env, startDir, socket, stopDir, stopper);
    DefaultPidPathSharedByProcesses(env, stopDir, stopper);
    ParseRenderedPid(pid);
  }

  /** A socket elsewhere is missed, and a root has no pid file beside it at all. */
  lemma CustomSocketMissed(stopper: nat)
    ensures var env := Environment(Some("/run"), None, None);
            && DefaultPidPath("/tmp/a.sock") != DefaultPidPath(Absolute("/", DefaultSocketPath(env, stopper)))
            && DefaultPidPath("/").None?
  {
    hide Names, Join, DefaultSocketPath, ParsePath;
    var env := Environment(Some("/run"), None, None);
    DefaultPidPathSharedByProcesses(env, "/", stopper);
    RootPath();
    UnderRoot("run");
    TwoUnderRoot("tmp", "a.sock");
    assert "/" + "run" == "/run" && "/" + "tmp" + "/" + "a.sock" == "/tmp/a.sock";
    assert ["tmp", "a.sock"][..1] == ["tmp"];
    assert "tmp"[0] != "run"[0];
    assert Child(Path(true, ["tmp"]), "gitway-agent.pid").names[0] == "tmp";
    assert Child(Path(true, ["run"]), "gitway-agent.pid").names[0] == "run";
  }

  lemma RootPath()
    ensures ParsePath("/") == Path(true, [])
  {
    NamesStep("", "", false);
    NoNames(false);
    assert "" + "/" + "" == "/";
  }

  lemma UnderRoot(name: string)
    requires Plain(name)
    ensures ParsePath("/" + name) == Path(true, [name])
  {
    RootPath();
    JoinIsChild("/", name);
    hide ParsePath;
    assert [] + [name] == [name];
  }

  lemma TwoUnderRoot(dir: string, name: string)
    requires Plain(dir) && Plain(name)
    ensures ParsePath("/" + dir + "/" + name) == Path(true, [dir, name])
  {
    UnderRoot(dir);
    JoinIsChild("/" + dir, name);
    hide ParsePath;
    assert ("/" + dir)[|dir|] == dir[|dir| - 1];
    assert [dir] + [name] == [dir, name];
  }
}
