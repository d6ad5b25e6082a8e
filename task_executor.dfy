/**
 * Command validation in the task executor (src/backend/services/taskExecutor.js):
 * the allow-list, the metacharacter sanitizer, and the sanitize-then-check
 * step that decides whether `executeCommand` hands a command to the shell.
 */
module TaskExecutor {
  import opened Js
  import opened Wrappers

  /** The program prefixes a command may start with. */
  const AllowedCommands: seq<string> :=
    ["ls", "dir", "pwd", "echo", "python", "python3", "node", "npm", "git status", "git log"]

  const CommandNotAllowed := "Command not allowed"

  /** The characters of the character class `[;&|`$]` that the sanitizer deletes. */
  predicate IsShellMeta(c: char) {
    c == ';' || c == '&' || c == '|' || c == '`' || c == '$'
  }

  predicate IsSafeChar(c: char) {
    !IsShellMeta(c)
  }

  /**
   * `command.replace(/[;&|`$]/g, '')`: the command with every metacharacter
   * deleted and every other character kept, in order.
   */
  function SanitizeCommand(command: string): (r: string)
    ensures forall i :: 0 <= i < |r| ==> !IsShellMeta(r[i])
    ensures |r| <= |command|
  {
    Filter(command, IsSafeChar)
  }

  /**
   * The sanitizer deletes exactly the metacharacters: every other character
   * keeps its number of occurrences.
   */
  lemma SanitizeDeletesExactlyMeta(command: string)
    ensures forall c :: !IsShellMeta(c) ==> multiset(SanitizeCommand(command))[c] == multiset(command)[c]
    ensures forall c :: IsShellMeta(c) ==> multiset(SanitizeCommand(command))[c] == 0
  {
    FilterCounts(command, IsSafeChar);
  }

  /** The sanitizer only deletes: the characters it keeps stay in their original order. */
  lemma SanitizeKeepsOrder(command: string)
    ensures IsSubsequence(SanitizeCommand(command), command)
  {
    FilterIsSubsequence(command, IsSafeChar);
  }

  /** `prefixes.some(p => command.startsWith(p))`. */
  function StartsWithAny(command: string, prefixes: seq<string>): (r: bool)
    ensures r <==> exists i :: 0 <= i < |prefixes| && prefixes[i] <= command
  {
    if prefixes == [] then false
    else prefixes[0] <= command || StartsWithAny(command, prefixes[1..])
  }

  /** A command is allowed exactly when some allow-list entry is a raw string prefix of it. */
  function IsCommandAllowed(command: string): (r: bool)
    ensures r <==> exists i :: 0 <= i < |AllowedCommands| && AllowedCommands[i] <= command
  {
    StartsWithAny(command, AllowedCommands)
  }

  /** The decision `executeCommand` takes before running anything. */
  datatype Decision = Run(sanitized: string) | Refuse(message: string)

  /**
   * Lines 27-32 of `executeCommand`: sanitize first, then check the sanitized
   * form against the allow-list; a refused command raises "Command not allowed".
   */
  function CheckCommand(command: string): (r: Decision)
    ensures r.Refuse? <==> !IsCommandAllowed(SanitizeCommand(command))
    ensures r.Refuse? ==> r.message == CommandNotAllowed
    ensures r.Run? ==> r.sanitized == SanitizeCommand(command)
    ensures r.Run? ==> IsCommandAllowed(r.sanitized)
    ensures r.Run? ==> forall i :: 0 <= i < |r.sanitized| ==> !IsShellMeta(r.sanitized[i])
  {
    var sanitized := SanitizeCommand(command);
    if !IsCommandAllowed(sanitized) then Refuse(CommandNotAllowed) else Run(sanitized)
  }

  /** What the child process reports back: its output, or the error `exec` passes to its callback. */
  datatype ProcessOutcome = Exited(stdout: string, stderr: string) | ProcessError(message: string)

  /** The object `executeCommand` resolves with. */
  datatype CommandResult = CommandResult(stdout: string, stderr: string, command: string)

  /**
   * `executeCommand`, with the child process abstracted as `exec`, a function
   * from the command line handed to the shell to what the process reports.
   */
  function ExecuteCommand(command: string, exec: string -> ProcessOutcome): (r: Result<CommandResult, string>)
    ensures !IsCommandAllowed(SanitizeCommand(command)) ==> r == Err(CommandNotAllowed)
    ensures IsCommandAllowed(SanitizeCommand(command)) ==>
      match exec(SanitizeCommand(command))
      case Exited(out, err) => r == Ok(CommandResult(out, err, SanitizeCommand(command)))
      case ProcessError(message) => r == Err(message)
    ensures r.Ok? ==> r.value.command == SanitizeCommand(command) && IsCommandAllowed(r.value.command)
  {
    match CheckCommand(command)
    case Refuse(message) => Err(message)
    case Run(sanitized) =>
      match exec(sanitized)
      case Exited(out, err) => Ok(CommandResult(out, err, sanitized))
      case ProcessError(message) => Err(message)
  }

  /** Sanitizing is idempotent: a sanitized command has nothing left to strip. */
  lemma SanitizeIdempotent(command: string)
    ensures SanitizeCommand(SanitizeCommand(command)) == SanitizeCommand(command)
  {
    FilterOfMatchesIsIdentity(SanitizeCommand(command), IsSafeChar);
  }

  /** A command free of metacharacters passes through the sanitizer unchanged. */
  lemma SanitizeKeepsCleanCommand(command: string)
    requires forall i :: 0 <= i < |command| ==> !IsShellMeta(command[i])
    ensures SanitizeCommand(command) == command
  {
    FilterOfMatchesIsIdentity(command, IsSafeChar);
  }

  /** The allow-list is closed under extension: whatever extends an allowed command is allowed. */
  lemma AllowedClosedUnderExtension(command: string, suffix: string)
    requires IsCommandAllowed(command)
    ensures IsCommandAllowed(command + suffix)
  {
  }

  /** The decision depends on the raw command only through its sanitized form. */
  lemma DecisionDependsOnlyOnSanitized(a: string, b: string)
    requires SanitizeCommand(a) == SanitizeCommand(b)
    ensures CheckCommand(a) == CheckCommand(b)
    ensures CheckCommand(a).Refuse? <==> !IsCommandAllowed(SanitizeCommand(b))
  {
  }

  /** The command opens with the first two characters of some allow-list entry. */
  predicate HasAllowedStart(command: string) {
    |command| >= 2 &&
    var c0, c1 := command[0], command[1];
    (c0 == 'l' && c1 == 's') || (c0 == 'd' && c1 == 'i') || (c0 == 'p' && c1 == 'w') ||
    (c0 == 'e' && c1 == 'c') || (c0 == 'p' && c1 == 'y') || (c0 == 'n' && c1 == 'o') ||
    (c0 == 'n' && c1 == 'p') || (c0 == 'g' && c1 == 'i')
  }

  /** Every allowed command opens like some allow-list entry; used to refuse concrete commands. */
  lemma AllowedCommandStart(command: string)
    requires IsCommandAllowed(command)
    ensures HasAllowedStart(command)
  {
  }

  /** Sanitizing a concatenation sanitizes each part. */
  lemma SanitizeAppend(a: string, b: string)
    ensures SanitizeCommand(a + b) == SanitizeCommand(a) + SanitizeCommand(b)
  {
    FilterAppend(a, b, IsSafeChar);
  }

  /** A metacharacter between two clean parts simply disappears, joining the parts. */
  lemma SanitizeJoinsAroundMeta(a: string, c: char, b: string)
    requires forall i :: 0 <= i < |a| ==> !IsShellMeta(a[i])
    requires forall i :: 0 <= i < |b| ==> !IsShellMeta(b[i])
    requires IsShellMeta(c)
    ensures SanitizeCommand(a + [c] + b) == a + b
  {
    SanitizeAppend(a + [c], b);
    SanitizeAppend(a, [c]);
    SanitizeKeepsCleanCommand(a);
    SanitizeKeepsCleanCommand(b);
    assert SanitizeCommand([c]) == [];
  }

  /**
   * Stripping comes before the check: "l;s" is not on the allow-list as typed,
   * but it sanitizes to "ls" and is run as "ls".
   */
  lemma StrippedCommandAccepted()
    ensures !IsCommandAllowed("l;s")
    ensures CheckCommand("l;s") == Run("ls")
  {
    if IsCommandAllowed("l;s") {
      AllowedCommandStart("l;s");
      assert false;
    }
    assert "l;s" == "l" + [';'] + "s";
    SanitizeJoinsAroundMeta("l", ';', "s");
    assert AllowedCommands[0] <= "ls";
  }

  /**
   * Chaining after an allowed command is not refused: `a;b` (or `a|b`, `a&b`,
   * ...) with `a` allowed runs as `a` followed directly by the text of `b`.
   */
  lemma ChainedCommandRuns(a: string, c: char, b: string)
    requires IsCommandAllowed(a) && IsShellMeta(c)
    requires forall i :: 0 <= i < |a| ==> !IsShellMeta(a[i])
    requires forall i :: 0 <= i < |b| ==> !IsShellMeta(b[i])
    ensures CheckCommand(a + [c] + b) == Run(a + b)
  {
    SanitizeJoinsAroundMeta(a, c, b);
    AllowedClosedUnderExtension(a, b);
  }

  /**
   * A raw prefix match admits longer program names ("lsblk" passes because of
   * "ls"), while a program outside the list is refused.
   */
  lemma PrefixAdmitsLongerProgram()
    ensures IsCommandAllowed("lsblk")
    ensures CheckCommand("rm -rf /") == Refuse(CommandNotAllowed)
  {
    assert AllowedCommands[0] <= "lsblk";
    SanitizeKeepsCleanCommand("rm -rf /");
    if IsCommandAllowed("rm -rf /") {
      AllowedCommandStart("rm -rf /");
      assert false;
    }
  }
}
