/**
  The privileged installer of RootInstaller.kt: shell quoting, the command
  builders, the parsing of the command output (current user, session id,
  utility-binary path) and the two install strategies as a trace of issued
  shell commands. The root shell is an oracle that, given the commands issued
  so far and the next one, answers whether it succeeded and its output lines.
*/
module Installer {
  import opened Wrappers
  import opened Text

  // ----- Quoting (the `String.quote` extension) -----

  /** The characters the quoting regular expression `[\\$"`]` escapes. */
  predicate IsShellSpecial(c: char) {
    c == '\\' || c == '$' || c == '"' || c == '`'
  }

  /** What one character becomes: a special character gets a backslash before it. */
  function EscapeChar(c: char): (r: string)
    ensures IsShellSpecial(c) ==> r == ['\\', c]
    ensures !IsShellSpecial(c) ==> r == [c]
  {
    if IsShellSpecial(c) then ['\\', c] else [c]
  }

  /** A backslash before every special character, every other character unchanged. */
  function Escape(s: string): (r: string)
    ensures |r| >= |s|
  {
    if s == [] then []
    else EscapeChar(s[0]) + Escape(s[1..])
  }

  /** A string without special characters is left unchanged. */
  lemma {:induction false} EscapePlain(s: string)
    requires forall i :: 0 <= i < |s| ==> !IsShellSpecial(s[i])
    ensures Escape(s) == s
  {
    if s != [] {
      EscapePlain(s[1..]);
      assert [s[0]] + s[1..] == s;
    }
  }

  /** Escaping works character by character: the escape of a concatenation is the concatenation of the escapes. */
  lemma {:induction false} EscapeConcat(a: string, b: string)
    ensures Escape(a + b) == Escape(a) + Escape(b)
  {
    if a != [] {
      assert (a + b)[0] == a[0] && (a + b)[1..] == a[1..] + b;
      EscapeConcat(a[1..], b);
    } else {
      assert a + b == b;
    }
  }

  /** Each character is replaced in place by its escape: the special ones are preceded by a backslash and nothing else changes. */
  lemma EscapeInPlace(before: string, c: char, after: string)
    ensures Escape(before + [c] + after) == Escape(before) + EscapeChar(c) + Escape(after)
  {
    EscapeConcat(before + [c], after);
    EscapeConcat(before, [c]);
    assert Escape([c]) == EscapeChar(c) + Escape([]);
  }

  function Quote(s: string): (r: string)
    ensures |r| >= |s| + 2 && r[0] == '"' && r[|r| - 1] == '"'
  {
    "\"" + Escape(s) + "\""
  }

  /**
    How a POSIX shell reads the inside of a double-quoted word, up to and
    including the closing quote: a backslash followed by `$`, backtick, `"`
    or backslash stands for that character, a backslash before a newline
    disappears, any other backslash is kept, and an unescaped `$` or
    backtick starts an expansion (here: not a literal word, `None`).
    Returns the word's value and what follows the closing quote.
  */
  function ReadQuotedBody(s: string): Option<(string, string)>
  {
    if s == [] then None
    else if s[0] == '"' then Some(([], s[1..]))
    else if s[0] == '$' || s[0] == '`' then None
    else if s[0] == '\\' && |s| >= 2 && IsShellSpecial(s[1]) then
      Prepend(s[1], ReadQuotedBody(s[2..]))
    else if s[0] == '\\' && |s| >= 2 && s[1] == '\n' then
      ReadQuotedBody(s[2..])
    else
      Prepend(s[0], ReadQuotedBody(s[1..]))
  }

  function Prepend(c: char, r: Option<(string, string)>): Option<(string, string)> {
    match r
    case None => None
    case Some((value, rest)) => Some(([c] + value, rest))
  }

  /** The single shell argument a text consisting of one double-quoted word stands for. */
  function ShellWord(text: string): Option<string> {
    if text == [] || text[0] != '"' then None
    else match ReadQuotedBody(text[1..])
      case Some((value, rest)) => if rest == [] then Some(value) else None
      case None => None
  }

  /** An escaped special character is read as that character. */
  lemma ReadEscapedSpecial(c: char, tail: string)
    requires IsShellSpecial(c)
    ensures ReadQuotedBody(['\\', c] + tail) == Prepend(c, ReadQuotedBody(tail))
  {
    var w := ['\\', c] + tail;
    assert w[0] == '\\' && w[1] == c && w[2..] == tail;
  }

  /** Any other character is read as itself. */
  lemma ReadPlain(c: char, tail: string)
    requires !IsShellSpecial(c)
    ensures ReadQuotedBody([c] + tail) == Prepend(c, ReadQuotedBody(tail))
  {
    var w := [c] + tail;
    assert w[0] == c && w[1..] == tail;
  }

  lemma {:induction false} ReadEscaped(s: string, rest: string)
    ensures ReadQuotedBody(Escape(s) + "\"" + rest) == Some((s, rest))
  {
    if s == [] {
      assert Escape(s) + "\"" + rest == "\"" + rest;
    } else {
      ReadEscaped(s[1..], rest);
      var tail := Escape(s[1..]) + "\"" + rest;
      var head := if IsShellSpecial(s[0]) then ['\\', s[0]] else [s[0]];
      assert Escape(s) == head + Escape(s[1..]);
      assert Escape(s) + "\"" + rest == head + tail;
      if IsShellSpecial(s[0]) {
        ReadEscapedSpecial(s[0], tail);
      } else {
        ReadPlain(s[0], tail);
      }
      assert [s[0]] + s[1..] == s;
    }
  }

  /** A quoted string is read back by the shell as exactly the original string, as one argument. */
  lemma ShellReadsQuote(s: string)
    ensures ShellWord(Quote(s)) == Some(s)
  {
    assert Quote(s)[1..] == Escape(s) + "\"" + [];
    ReadEscaped(s, []);
  }

  /** Two different strings never quote to the same text. */
  lemma QuoteInjective(s: string, t: string)
    requires Quote(s) == Quote(t)
    ensures s == t
  {
    ShellReadsQuote(s);
    ShellReadsQuote(t);
  }

  // ----- Commands and the shell -----

  /** A file as the installer uses it: `absolutePath`, `name` and `length()`. */
  datatype File = File(absolutePath: string, name: string, length: int)

  /**
    The shell commands the installer issues. The install, session and delete
    commands are filled into format strings that are not part of this model,
    so each carries its format arguments in their order.
  */
  datatype Command =
    | GetCurrentUser                       // "am get-current-user"
    | DumpUserLru                          // "dumpsys activity | grep -E \"mUserLru\""
    | Which(binary: string)                // "which <binary>"
    | InstallPackage(absolutePath: string, applicationId: string, userState: string, length: int)
    | SessionCreate(applicationId: string, userState: string, length: int)
    | SessionWrite(absolutePath: string, length: int, sessionId: int, name: string)
    | SessionCommit(sessionId: int)
    | UninstallPackage(userState: string, packageName: string)
    | DeletePackage(utilBoxPath: string, quotedPath: string)

  datatype ShellResult = ShellResult(isSuccess: bool, out: seq<string>)

  /** The root shell: its answer to a command, given the commands issued before it. */
  type Shell = (seq<Command>, Command) -> ShellResult

  // ----- The current user (`getCurrentUserState`) -----

  const UserLruPrefix: string := "mUserLru: ["

  /** The user query the installer issues on the given SDK level. */
  function UserStateQuery(sdk: int): (q: Command)
    ensures q == GetCurrentUser <==> sdk >= 25
    ensures q == DumpUserLru <==> sdk < 25
  {
    if sdk >= 25 then GetCurrentUser else DumpUserLru
  }

  /**
    The user state read from the query's output: the first line as-is on SDK 25
    and later, otherwise the trimmed first line without the `mUserLru: [` prefix
    and `]` suffix. No output line is an exception (`out[0]`).
  */
  function CurrentUserState(sdk: int, out: seq<string>): (r: Option<string>)
    ensures r.Some? <==> out != []
    ensures out != [] && sdk >= 25 ==> r == Some(out[0])
  {
    if out == [] then None
    else if sdk >= 25 then Some(out[0])
    else Some(RemoveSuffix(RemovePrefix(Trim(out[0]), UserLruPrefix), "]"))
  }

  /** A dump line `mUserLru: [<users>]`, padded with whitespace, yields `<users>` on SDK levels before 25. */
  lemma UserLruLineParsed(sdk: int, left: string, users: string, right: string, more: seq<string>)
    requires sdk < 25
    requires AllWhitespace(left) && AllWhitespace(right)
    ensures CurrentUserState(sdk, [left + UserLruPrefix + users + "]" + right] + more) == Some(users)
  {
    var core := UserLruPrefix + users + "]";
    var line := left + UserLruPrefix + users + "]" + right;
    assert line == left + core + right;
    assert core[0] == 'm' && core[|core| - 1] == ']';
    TrimOfPadded(left, core, right);
    StripUserLru(users);
  }

  /** The `mUserLru: [` prefix and the `]` suffix come off the bracketed list. */
  lemma StripUserLru(users: string)
    ensures RemoveSuffix(RemovePrefix(UserLruPrefix + users + "]", UserLruPrefix), "]") == users
  {
    var core := UserLruPrefix + users + "]";
    assert UserLruPrefix <= core && core[|UserLruPrefix|..] == users + "]";
    assert EndsWith(users + "]", "]") && (users + "]")[..|users|] == users;
  }

  // ----- The session id (first run of digits, `toInt`) -----

  const IntMax: int := 0x7fff_ffff

  /** The first index, from `i` on, holding a digit (or `|s|`). */
  function FirstDigitFrom(s: string, i: nat): (k: nat)
    requires i <= |s|
    ensures i <= k <= |s|
    ensures k < |s| ==> IsDigit(s[k])
    ensures forall m :: i <= m < k ==> !IsDigit(s[m])
    decreases |s| - i
  {
    if i == |s| || IsDigit(s[i]) then i else FirstDigitFrom(s, i + 1)
  }

  /** The end of the run of digits that starts at `i`. */
  function DigitRunEnd(s: string, i: nat): (k: nat)
    requires i <= |s|
    ensures i <= k <= |s|
    ensures k < |s| ==> !IsDigit(s[k])
    ensures forall m :: i <= m < k ==> IsDigit(s[m])
    decreases |s| - i
  {
    if i == |s| || !IsDigit(s[i]) then i else DigitRunEnd(s, i + 1)
  }

  /** The value of a string of decimal digits. */
  function DigitsValue(d: string): nat {
    if d == [] then 0 else 10 * DigitsValue(d[..|d| - 1]) + (d[|d| - 1] as int - '0' as int) % 10
  }

  /** The decimal digits of `n`, without leading zeros. */
  function DecimalDigits(n: nat): (d: string)
    ensures d != [] && forall i :: 0 <= i < |d| ==> IsDigit(d[i])
  {
    var c := ('0' as int + n % 10) as char;
    if n < 10 then [c] else DecimalDigits(n / 10) + [c]
  }

  lemma {:induction false} DigitsValueOfDecimal(n: nat)
    ensures DigitsValue(DecimalDigits(n)) == n
  {
    var d := DecimalDigits(n);
    if n >= 10 {
      DigitsValueOfDecimal(n / 10);
      assert d[..|d| - 1] == DecimalDigits(n / 10);
    }
  }

  /**
    `Pattern.compile("(\\d+)").matcher(line).find()` then `group(1).toInt()`:
    the value of the first maximal run of digits, `None` when there is none
    or when its value does not fit an `Int` (`toInt` throws).
  */
  function SessionIdOf(line: string): (r: Option<int>)
    ensures r.None? <== forall i :: 0 <= i < |line| ==> !IsDigit(line[i])
    ensures r.Some? ==> 0 <= r.value <= IntMax
  {
    var start := FirstDigitFrom(line, 0);
    if start == |line| then None
    else
      var v := DigitsValue(line[start..DigitRunEnd(line, start)]);
      if v > IntMax then None else Some(v)
  }

  /** A first run of digits whose value does not fit an `Int` yields no session id: `toInt` throws. */
  lemma SessionIdOverflow(prefix: string, d: string, suffix: string)
    requires forall i :: 0 <= i < |prefix| ==> !IsDigit(prefix[i])
    requires d != [] && forall i :: 0 <= i < |d| ==> IsDigit(d[i])
    requires suffix == [] || !IsDigit(suffix[0])
    requires DigitsValue(d) > IntMax
    ensures SessionIdOf(prefix + d + suffix) == None
  {
    var line := prefix + d + suffix;
    assert forall m :: 0 <= m < |prefix| ==> line[m] == prefix[m];
    assert forall m :: |prefix| <= m < |prefix| + |d| ==> line[m] == d[m - |prefix|];
    assert suffix != [] ==> line[|prefix| + |d|] == suffix[0];
    assert IsDigit(line[|prefix|]);
    var start := FirstDigitFrom(line, 0);
    assert start == |prefix|;
    var end := DigitRunEnd(line, start);
    assert end == |prefix| + |d|;
    assert line[start..end] == d;
  }

  /** An output line with a number after a digit-free prefix yields that number as the session id. */
  lemma SessionIdFound(prefix: string, n: nat, suffix: string)
    requires forall i :: 0 <= i < |prefix| ==> !IsDigit(prefix[i])
    requires suffix == [] || !IsDigit(suffix[0])
    requires n <= IntMax
    ensures SessionIdOf(prefix + DecimalDigits(n) + suffix) == Some(n)
  {
    var d := DecimalDigits(n);
    var line := prefix + d + suffix;
    assert forall m :: 0 <= m < |prefix| ==> line[m] == prefix[m];
    assert forall m :: |prefix| <= m < |prefix| + |d| ==> line[m] == d[m - |prefix|];
    assert suffix != [] ==> line[|prefix| + |d|] == suffix[0];
    assert IsDigit(line[|prefix|]);
    var start := FirstDigitFrom(line, 0);
    assert start == |prefix|;
    var end := DigitRunEnd(line, start);
    assert end == |prefix| + |d|;
    assert line[start..end] == d;
    DigitsValueOfDecimal(n);
  }

  // ----- The utility-binary path (`getUtilBoxPath`) -----

  const UtilBoxes: seq<string> := ["toybox", "busybox"]

  /** Probe results that yield a path: the joined output is non-empty (a non-empty output list alone is not enough). */
  predicate Resolves(r: ShellResult) {
    r.out != [] && Join(r.out) != []
  }

  /**
    Probes `which toybox`, then `which busybox`, stopping at the first whose
    joined output is non-empty, and returns that output quoted, or `""` when
    neither resolves; `probes` are the commands issued.
  */
  method GetUtilBoxPath(shell: Shell, history: seq<Command>) returns (path: string, probes: seq<Command>)
    ensures (path, probes) == UtilBoxLookup(shell, history)
  {
    var i := 0;
    probes := [];
    while i < |UtilBoxes|
      invariant 0 <= i <= |UtilBoxes|
      invariant probes == Probes(i)
      invariant i > 0 ==> !Resolves(shell(history, Which("toybox")))
      invariant i > 1 ==> !Resolves(shell(history + [Which("toybox")], Which("busybox")))
    {
      assert history + Probes(0) == history && Probes(1) == [Which("toybox")] && Probes(2) == [Which("toybox"), Which("busybox")];
      var cmd := Which(UtilBoxes[i]);
      var result := shell(history + probes, cmd);
      probes := probes + [cmd];
      if result.out != [] {
        var utilBoxPath := Join(result.out);
        if utilBoxPath != [] {
          path := Quote(utilBoxPath);
          return;
        }
      }
      i := i + 1;
    }
    assert Probes(2) == [Which("toybox"), Which("busybox")];
    path := "";
  }

  /** The first `n` probe commands. */
  function Probes(n: nat): (p: seq<Command>)
    requires n <= |UtilBoxes|
    ensures |p| == n && forall j :: 0 <= j < n ==> p[j] == Which(UtilBoxes[j])
  {
    if n == 0 then [] else Probes(n - 1) + [Which(UtilBoxes[n - 1])]
  }

  /** What `getUtilBoxPath` yields and issues: the first of the two probes that resolves wins. */
  function UtilBoxLookup(shell: Shell, history: seq<Command>): (r: (string, seq<Command>))
    ensures r.1 == [Which("toybox")] || r.1 == [Which("toybox"), Which("busybox")]
    ensures |r.1| == 1 <==> Resolves(shell(history, Which("toybox")))
    ensures r.0 == "" <==> !Resolves(shell(history, Which("toybox"))) && !Resolves(shell(history + [Which("toybox")], Which("busybox")))
    ensures |r.1| == 1 ==> r.0 == Quote(Join(shell(history, Which("toybox")).out))
  {
    var toybox := shell(history, Which("toybox"));
    if Resolves(toybox) then (Quote(Join(toybox.out)), [Which("toybox")])
    else
      var busybox := shell(history + [Which("toybox")], Which("busybox"));
      if Resolves(busybox) then (Quote(Join(busybox.out)), [Which("toybox"), Which("busybox")])
      else ("", [Which("toybox"), Which("busybox")])
  }

  // ----- The two install strategies (`mRootInstaller`) and uninstall -----

  /** `deletePackage`: the utility-binary probes, then the delete command with the quoted absolute path. */
  function DeleteCommands(shell: Shell, history: seq<Command>, file: File): (d: seq<Command>)
    ensures 2 <= |d| <= 3 && d[0] == Which("toybox") && (|d| == 3 ==> d[1] == Which("busybox"))
    ensures d[|d| - 1].DeletePackage? && d[|d| - 1].quotedPath == Quote(file.absolutePath)
  {
    var (path, probes) := UtilBoxLookup(shell, history);
    probes + [DeletePackage(path, Quote(file.absolutePath))]
  }

  /** The direct strategy: one install command, then the delete only if it succeeded. */
  function DirectInstallCommands(shell: Shell, history: seq<Command>, applicationId: string, userState: string, file: File): (c: seq<Command>)
    ensures c != [] && c[0] == InstallPackage(file.absolutePath, applicationId, userState, file.length)
    ensures |c| > 1 <==> shell(history, c[0]).isSuccess
  {
    var install := InstallPackage(file.absolutePath, applicationId, userState, file.length);
    [install] + (if shell(history, install).isSuccess then DeleteCommands(shell, history + [install], file) else [])
  }

  /**
    The staged strategy as the code is written: create; with a session id
    from the first output line, write and then commit; the delete is guarded
    by the WRITE's result (the callback parameter `it` of the write), and the
    commit's result is never read. No output line at all (`out[0]`) and a
    session id too large for an `Int` (`toInt`) throw inside the create's
    callback; the model keeps only that, like a line without a session id,
    nothing follows the create.
  */
  function StagedInstallCommands(shell: Shell, history: seq<Command>, applicationId: string, userState: string, file: File): (c: seq<Command>)
    ensures c != [] && c[0] == SessionCreate(applicationId, userState, file.length)
    ensures var created := shell(history, c[0]);
            |c| == 1 <==> created.out == [] || SessionIdOf(created.out[0]).None?
  {
    var create := SessionCreate(applicationId, userState, file.length);
    var created := shell(history, create);
    if created.out == [] then [create]
    else match SessionIdOf(created.out[0])
      case None => [create]
      case Some(id) =>
        var write := SessionWrite(file.absolutePath, file.length, id, file.name);
        var written := shell(history + [create], write);
        var commit := SessionCommit(id);
        [create, write, commit]
          + (if written.isSuccess then DeleteCommands(shell, history + [create, write, commit], file) else [])
  }

  /**
    The staged strategy with the delete guarded by the commit's result, as
    the install protocol intends it.
  */
  function StagedInstallCommandsIntended(shell: Shell, history: seq<Command>, applicationId: string, userState: string, file: File): (c: seq<Command>)
    ensures c != [] && c[0] == SessionCreate(applicationId, userState, file.length)
    ensures var created := shell(history, c[0]);
            |c| == 1 <==> created.out == [] || SessionIdOf(created.out[0]).None?
  {
    var create := SessionCreate(applicationId, userState, file.length);
    var created := shell(history, create);
    if created.out == [] then [create]
    else match SessionIdOf(created.out[0])
      case None => [create]
      case Some(id) =>
        var write := SessionWrite(file.absolutePath, file.length, id, file.name);
        var commit := SessionCommit(id);
        var committed := shell(history + [create, write], commit);
        [create, write, commit]
          + (if committed.isSuccess then DeleteCommands(shell, history + [create, write, commit], file) else [])
  }

  /** The commands one call of `mRootInstaller` issues; nothing without a user state (its initialiser threw). */
  function InstallCommands(shell: Shell, history: seq<Command>, rootSession: bool, applicationId: string, userState: Option<string>, file: File): (c: seq<Command>)
    ensures c == [] <==> userState.None?
    ensures userState.Some? && rootSession ==> c[0] == SessionCreate(applicationId, userState.value, file.length)
    ensures userState.Some? && !rootSession ==> c[0] == InstallPackage(file.absolutePath, applicationId, userState.value, file.length)
  {
    match userState
    case None => []
    case Some(user) =>
      if rootSession then StagedInstallCommands(shell, history, applicationId, user, file)
      else DirectInstallCommands(shell, history, applicationId, user, file)
  }

  /** The delete is the probes followed by one delete command of the quoted path. */
  lemma DeleteCommandsShape(shell: Shell, history: seq<Command>, file: File)
    ensures var d := DeleteCommands(shell, history, file);
      && 2 <= |d| <= 3
      && d[|d| - 1] == DeletePackage(UtilBoxLookup(shell, history).0, Quote(file.absolutePath))
      && forall k :: 0 <= k < |d| - 1 ==> d[k].Which?
  {
  }

  /** The direct strategy issues exactly one install command, and the delete follows iff it succeeded. */
  lemma DirectInstallOrder(shell: Shell, history: seq<Command>, applicationId: string, userState: string, file: File)
    ensures var c := DirectInstallCommands(shell, history, applicationId, userState, file);
      var install := InstallPackage(file.absolutePath, applicationId, userState, file.length);
      && c[0] == install
      && (forall k :: 0 < k < |c| ==> !c[k].InstallPackage?)
      && (|c| > 1 <==> shell(history, install).isSuccess)
      && (|c| > 1 ==> c[1..] == DeleteCommands(shell, history + [install], file))
  {
    DeleteCommandsShape(shell, history + [InstallPackage(file.absolutePath, applicationId, userState, file.length)], file);
  }

  /** Without a session id in the create command's first output line nothing follows the create. */
  lemma StagedStopsWithoutSessionId(shell: Shell, history: seq<Command>, applicationId: string, userState: string, file: File)
    requires var created := shell(history, SessionCreate(applicationId, userState, file.length));
      created.out == [] || SessionIdOf(created.out[0]).None?
    ensures StagedInstallCommands(shell, history, applicationId, userState, file) == [SessionCreate(applicationId, userState, file.length)]
  {
  }

  /**
    With a session id, the staged strategy issues create, write and commit in
    that order, the commit whatever the write answered, and a delete iff the
    write succeeded.
  */
  lemma StagedInstallOrder(shell: Shell, history: seq<Command>, applicationId: string, userState: string, file: File, id: int)
    requires var created := shell(history, SessionCreate(applicationId, userState, file.length));
      created.out != [] && SessionIdOf(created.out[0]) == Some(id)
    ensures var c := StagedInstallCommands(shell, history, applicationId, userState, file);
      var create := SessionCreate(applicationId, userState, file.length);
      var write := SessionWrite(file.absolutePath, file.length, id, file.name);
      && |c| >= 3
      && c[..3] == [create, write, SessionCommit(id)]
      && ((exists k :: 3 <= k < |c| && c[k].DeletePackage?) <==> shell(history + [create], write).isSuccess)
  {
    var create := SessionCreate(applicationId, userState, file.length);
    var write := SessionWrite(file.absolutePath, file.length, id, file.name);
    var h := history + [create, write, SessionCommit(id)];
    DeleteCommandsShape(shell, h, file);
    var c := StagedInstallCommands(shell, history, applicationId, userState, file);
    if shell(history + [create], write).isSuccess {
      assert c[|c| - 1].DeletePackage?;
    }
  }

  /** Shells that agree on the probes agree on the delete. */
  lemma DeleteCommandsAgree(shell1: Shell, shell2: Shell, history: seq<Command>, file: File)
    requires shell1(history, Which("toybox")) == shell2(history, Which("toybox"))
    requires shell1(history + [Which("toybox")], Which("busybox")) == shell2(history + [Which("toybox")], Which("busybox"))
    ensures DeleteCommands(shell1, history, file) == DeleteCommands(shell2, history, file)
  {
  }

  /** The commit's result is never consulted: shells that differ only in how they answer commits give the same commands. */
  lemma CommitResultIgnored(shell1: Shell, shell2: Shell, history: seq<Command>, applicationId: string, userState: string, file: File)
    requires forall h: seq<Command>, c: Command :: !c.SessionCommit? ==> shell1(h, c) == shell2(h, c)
    ensures StagedInstallCommands(shell1, history, applicationId, userState, file)
         == StagedInstallCommands(shell2, history, applicationId, userState, file)
  {
    var create := SessionCreate(applicationId, userState, file.length);
    assert shell1(history, create) == shell2(history, create);
    var created := shell1(history, create);
    if created.out != [] && SessionIdOf(created.out[0]).Some? {
      var id := SessionIdOf(created.out[0]).value;
      var write := SessionWrite(file.absolutePath, file.length, id, file.name);
      var h := history + [create, write, SessionCommit(id)];
      assert shell1(history + [create], write) == shell2(history + [create], write);
      assert shell1(h, Which("toybox")) == shell2(h, Which("toybox"));
      assert shell1(h + [Which("toybox")], Which("busybox")) == shell2(h + [Which("toybox")], Which("busybox"));
      DeleteCommandsAgree(shell1, shell2, h, file);
    }
  }

  /** What `pm install-create` prints for session 7. */
  const CreatedLine: string := "Success: created install session [7]"

  lemma CreatedLineSessionId()
    ensures SessionIdOf(CreatedLine) == Some(7)
  {
    assert DecimalDigits(7) == "7";
    assert CreatedLine == "Success: created install session [" + DecimalDigits(7) + "]";
    SessionIdFound("Success: created install session [", 7, "]");
  }

  /** The shell of the counterexample: every command succeeds except the commit. */
  function CommitFailsShell(): Shell {
    (h: seq<Command>, c: Command) =>
      match c
      case SessionCreate(_, _, _) => ShellResult(true, [CreatedLine])
      case SessionCommit(_) => ShellResult(false, [])
      case _ => ShellResult(true, [])
  }

  /** As written, a failed commit still deletes the cache file when the write succeeded. */
  lemma FailedCommitStillDeletes(applicationId: string, userState: string, file: File)
    ensures var c := StagedInstallCommands(CommitFailsShell(), [], applicationId, userState, file);
      && |c| > 3 && c[2] == SessionCommit(7) && c[|c| - 1].DeletePackage?
  {
    var line := CreatedLine;
    CreatedLineSessionId();
    var shell := CommitFailsShell();
    var create := SessionCreate(applicationId, userState, file.length);
    var write := SessionWrite(file.absolutePath, file.length, 7, file.name);
    assert shell([], create) == ShellResult(true, [line]);
    assert shell([create], write).isSuccess;
    assert StagedInstallCommands(shell, [], applicationId, userState, file)
        == [create, write, SessionCommit(7)] + DeleteCommands(shell, [create, write, SessionCommit(7)], file);
    DeleteCommandsShape(shell, [create, write, SessionCommit(7)], file);
  }

  /** Corrected: a delete is issued only after a commit that succeeded, and then always. */
  lemma IntendedDeletesOnlyAfterCommit(shell: Shell, history: seq<Command>, applicationId: string, userState: string, file: File, id: int)
    requires var created := shell(history, SessionCreate(applicationId, userState, file.length));
      created.out != [] && SessionIdOf(created.out[0]) == Some(id)
    ensures var c := StagedInstallCommandsIntended(shell, history, applicationId, userState, file);
      var create := SessionCreate(applicationId, userState, file.length);
      var write := SessionWrite(file.absolutePath, file.length, id, file.name);
      && c[..3] == [create, write, SessionCommit(id)]
      && ((exists k :: 3 <= k < |c| && c[k].DeletePackage?) <==> shell(history + [create, write], SessionCommit(id)).isSuccess)
  {
    var create := SessionCreate(applicationId, userState, file.length);
    var write := SessionWrite(file.absolutePath, file.length, id, file.name);
    DeleteCommandsShape(shell, history + [create, write, SessionCommit(id)], file);
    var c := StagedInstallCommandsIntended(shell, history, applicationId, userState, file);
    if shell(history + [create, write], SessionCommit(id)).isSuccess {
      assert c[|c| - 1].DeletePackage?;
    }
  }

  /**
    The root installer: the user state is queried once, when the installer
    is set up, and every later command goes to the root shell and is
    appended to `issued`.
  */
  class RootInstaller {
    const applicationId: string
    const shell: Shell
    const userState: Option<string>
    var issued: seq<Command>

    constructor (applicationId: string, sdk: int, shell: Shell)
      ensures this.applicationId == applicationId && this.shell == shell
      ensures issued == [UserStateQuery(sdk)]
      ensures userState == CurrentUserState(sdk, shell([], UserStateQuery(sdk)).out)
    {
      this.applicationId := applicationId;
      this.shell := shell;
      var query := UserStateQuery(sdk);
      this.userState := CurrentUserState(sdk, shell([], query).out);
      this.issued := [query];
    }

    /** `Shell.su(command)`: issue one command and receive its result. */
    method Exec(command: Command) returns (result: ShellResult)
      modifies this
      ensures issued == old(issued) + [command]
      ensures result == shell(old(issued), command)
    {
      result := shell(issued, command);
      issued := issued + [command];
    }

    /** `Shell.su(cacheFile.deletePackage)`: resolve the utility binary, then delete. */
    method DeleteFile(file: File)
      modifies this
      ensures issued == old(issued) + DeleteCommands(shell, old(issued), file)
    {
      var path, probes := GetUtilBoxPath(shell, issued);
      issued := issued + probes;
      var _ := Exec(DeletePackage(path, Quote(file.absolutePath)));
    }

    /** `mRootInstaller`: the strategy is chosen by the `RootSessionInstaller` preference alone. */
    method RootInstall(cacheFile: File, rootSession: bool)
      modifies this
      ensures issued == old(issued) + InstallCommands(shell, old(issued), rootSession, applicationId, userState, cacheFile)
    {
      if userState.Some? {
        if rootSession {
          StagedInstall(userState.value, cacheFile);
        } else {
          DirectInstall(userState.value, cacheFile);
        }
      }
    }

    /**
      The staged branch of `mRootInstaller`: create, write, commit, then
      delete on the WRITE's success, as the code is written.
    */
    method StagedInstall(user: string, cacheFile: File)
      modifies this
      ensures issued == old(issued) + StagedInstallCommands(shell, old(issued), applicationId, user, cacheFile)
    {
      var create := SessionCreate(applicationId, user, cacheFile.length);
      var created := Exec(create);
      if created.out != [] {
        var found := SessionIdOf(created.out[0]);
        if found.Some? {
          var sessionId := found.value;
          var write := SessionWrite(cacheFile.absolutePath, cacheFile.length, sessionId, cacheFile.name);
          var written := Exec(write);
          var _ := Exec(SessionCommit(sessionId));
          ghost var sent := issued;
          assert sent == old(issued) + [create, write, SessionCommit(sessionId)];
          if written.isSuccess {
            DeleteFile(cacheFile);
          }
        }
      }
    }

    /** The direct branch of `mRootInstaller`: install, then delete on its success. */
    method DirectInstall(user: string, cacheFile: File)
      modifies this
      ensures issued == old(issued) + DirectInstallCommands(shell, old(issued), applicationId, user, cacheFile)
    {
      var installed := Exec(InstallPackage(cacheFile.absolutePath, applicationId, user, cacheFile.length));
      if installed.isSuccess {
        DeleteFile(cacheFile);
      }
    }

    /** `install(cacheFileName)`, with the release file it names already resolved. */
    method Install(cacheFile: File, rootSession: bool)
      modifies this
      ensures issued == old(issued) + InstallCommands(shell, old(issued), rootSession, applicationId, userState, cacheFile)
    {
      RootInstall(cacheFile, rootSession);
    }

    /** `install(packageName, cacheFileName)` and `install(packageName, cacheFile)`: the package name is not used. */
    method InstallPackageFile(packageName: string, cacheFile: File, rootSession: bool)
      modifies this
      ensures issued == old(issued) + InstallCommands(shell, old(issued), rootSession, applicationId, userState, cacheFile)
    {
      RootInstall(cacheFile, rootSession);
    }

    /** `uninstall(packageName)`: one uninstall command for the current user. */
    method Uninstall(packageName: string)
      modifies this
      ensures issued == old(issued) + (match userState
                                       case None => []
                                       case Some(user) => [UninstallPackage(user, packageName)])
    {
      if userState.Some? {
        var _ := Exec(UninstallPackage(userState.value, packageName));
      }
    }
  }
}
