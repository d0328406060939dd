/** The evaluator of src/interpreter.rs: a stateless recursive evaluation of
    an expression against one directory entry. Everything the source reads
    from the operating system (metadata, the clock, environment variables,
    the process ids) and the two foreign matching engines (glob and regex)
    come in through a `Host` value. */
module Interpreter {
  import opened Wrappers
  import opened Numbers
  import Ast

  const NANOS_PER_SECOND: nat := 1_000_000_000
  /** The unit of `-amin`, `-cmin` and `-mmin`. */
  const MINUTE: nat := 60
  /** The unit of `-atime`, `-ctime` and `-mtime`. */
  const DAY: nat := 24 * 60 * 60

  /** What `std::fs::Metadata` reports on unix. A timestamp is nanoseconds
      since the epoch; `None` when the platform cannot report it. */
  datatype Metadata = Metadata(
    kind: Ast.FileType,
    len: u64,
    uid: u32,
    gid: u32,
    accessed: Option<int>,
    modified: Option<int>,
    created: Option<int>)

  /** A walked directory entry: its whole path, its last component, and its
      metadata, `None` when it cannot be read. */
  datatype Entry = Entry(path: string, fileName: string, metadata: Option<Metadata>)

  /** The outside world as the evaluator sees it. */
  datatype Host = Host(
    now: int,                                  // SystemTime::now()
    metadataAt: string -> Option<Metadata>,    // fs::metadata(path)
    globCompiles: string -> bool,              // Pattern::new(p).is_ok()
    globMatches: (string, string) -> bool,     // pattern.matches(target)
    regexCompiles: string -> bool,             // Regex::new(p).is_ok()
    regexMatches: (string, string) -> bool,    // regex.is_match(target), unanchored
    userVar: Option<string>,                   // std::env::var("USER")
    groupVar: Option<string>,                  // std::env::var("GROUP")
    processUid: u32,                           // libc::getuid()
    processGid: u32)                           // libc::getgid()

  /** Which of the three timestamps a time test reads. */
  datatype TimeField = Accessed | Modified | Created

  function TimeOf(m: Metadata, field: TimeField): Option<int>
  {
    match field
    case Accessed => m.accessed
    case Modified => m.modified
    case Created => m.created
  }

  // ---------------------------------------------------------------------
  // Evaluation.

  /** `Interpreter::evaluate`. The source's `evaluate_test` has no arm for
      `-perm`, so only permission-free expressions can be evaluated. `&&`
      and `||` short-circuit; with pure tests that changes no result. */
  function Evaluate(h: Host, e: Ast.Expr, entry: Entry): bool
    requires Ast.PermFree(e)
  {
    match e
    case Not(inner) => !Evaluate(h, inner, entry)
    case And(l, r) => Evaluate(h, l, entry) && Evaluate(h, r, entry)
    case Or(l, r) => Evaluate(h, l, entry) || Evaluate(h, r, entry)
    case Test(t) => EvaluateTest(h, t, entry)
  }

  /** `Interpreter::evaluate_test`. */
  function EvaluateTest(h: Host, t: Ast.Test, entry: Entry): bool
    requires !t.Perm?
  {
    match t
    case Path(p) => MatchGlob(h, p, entry.path, false)
    case Name(p) => MatchGlob(h, p, entry.fileName, false)
    case Iname(p) => MatchGlob(h, p, entry.fileName, true)
    case Regex(p) => MatchRegex(h, p, entry.path)
    case True => true
    case False => false
    case Type(k) => MatchType(k, entry)
    case Size(s) => MatchSize(s, entry)
    case Empty => MatchEmpty(entry)
    case Amin(s) => MatchTime(h, s, entry, Accessed, MINUTE)
    case Atime(s) => MatchTime(h, s, entry, Accessed, DAY)
    case Ctime(s) => MatchTime(h, s, entry, Created, DAY)
    case Cmin(s) => MatchTime(h, s, entry, Created, MINUTE)
    case Mmin(s) => MatchTime(h, s, entry, Modified, MINUTE)
    case Mtime(s) => MatchTime(h, s, entry, Modified, DAY)
    case Anewer(f) => CompareFileTimes(h, entry, f, Accessed)
    case Cnewer(f) => CompareFileTimes(h, entry, f, Created)
    case Mnewer(f) => CompareFileTimes(h, entry, f, Modified)
    case Newer(f) => CompareFileTimes(h, entry, f, Modified)
    case Ipath(p) => MatchGlob(h, p, entry.path, true)
    case Iregex(p) => MatchRegex(h, "(?i)" + p, entry.path)
    case User(name) => MatchOwner(name, entry, h.userVar, h.processUid, true)
    case Group(name) => MatchOwner(name, entry, h.groupVar, h.processGid, false)
    case Uid(n) => entry.metadata.Some? && entry.metadata.value.uid == n
    case Gid(n) => entry.metadata.Some? && entry.metadata.value.gid == n
  }

  // ---------------------------------------------------------------------
  // Names and paths.

  function LowerChar(c: char): char
  {
    if 'A' <= c <= 'Z' then (c as int + 32) as char else c
  }

  /** `str::to_lowercase` on the ASCII letters. */
  function Lower(s: string): (r: string)
    ensures |r| == |s|
    ensures forall i :: 0 <= i < |r| ==> !('A' <= r[i] <= 'Z')
    ensures forall i :: 0 <= i < |r| && !('A' <= s[i] <= 'Z') ==> r[i] == s[i]
    ensures forall i :: 0 <= i < |r| && 'A' <= s[i] <= 'Z' ==>
              r[i] == "abcdefghijklmnopqrstuvwxyz"[s[i] as int - 'A' as int]
  {
    seq(|s|, i requires 0 <= i < |s| => LowerChar(s[i]))
  }

  /** `match_glob_pattern`: a pattern that does not compile matches
      nothing; case-insensitive matching lowercases the target only. */
  function MatchGlob(h: Host, pattern: string, target: string, caseInsensitive: bool): bool
  {
    h.globCompiles(pattern) && h.globMatches(pattern, if caseInsensitive then Lower(target) else target)
  }

  /** `match_regex`; `match_iregex` passes the pattern with `(?i)` in
      front. */
  function MatchRegex(h: Host, pattern: string, path: string): bool
  {
    h.regexCompiles(pattern) && h.regexMatches(pattern, path)
  }

  // ---------------------------------------------------------------------
  // Type and size.

  /** `match_type`: unreadable metadata matches no type. */
  function MatchType(k: Ast.FileType, entry: Entry): bool
  {
    entry.metadata.Some? && entry.metadata.value.kind == k
  }

  /** The three-way comparison shared by size and time tests: no sign is
      "exactly", `+` is "more than", `-` is "less than". */
  function Compare(sign: Ast.Sign, actual: int, target: int): bool
  {
    match sign
    case None => actual == target
    case Plus => actual > target
    case Minus => actual < target
  }

  /** Bytes per unit of each size suffix; 512-byte blocks by default. */
  function Multiplier(suffix: Option<Ast.SizeSuffix>): (m: nat)
    ensures m > 0
  {
    match suffix
    case Some(Bytes) => 1
    case Some(Words) => 2
    case Some(Kb) => 1024
    case Some(Mb) => 1024 * 1024
    case Some(Gb) => 1024 * 1024 * 1024
    case Some(Blocks) => 512
    case None => 512
  }

  /** `calculate_size_in_bytes`. */
  function CalculateSizeInBytes(s: Ast.SizeSpec): nat
  {
    s.value * Multiplier(s.suffix)
  }

  /** `match_size`. */
  function MatchSize(s: Ast.SizeSpec, entry: Entry): bool
  {
    entry.metadata.Some? && Compare(s.sign, entry.metadata.value.len, CalculateSizeInBytes(s))
  }

  /** `match_empty`. */
  function MatchEmpty(entry: Entry): bool
  {
    entry.metadata.Some? && entry.metadata.value.len == 0
  }

  // ---------------------------------------------------------------------
  // Times.

  /** Whole units elapsed: whole seconds first (`as_secs`), then whole
      units of those. */
  function Elapsed(now: int, fileTime: int, unit: nat): nat
    requires fileTime <= now && unit > 0
  {
    (now - fileTime) / NANOS_PER_SECOND / unit
  }

  /** `compare_time_spec`: a file time after `now` matches nothing. */
  function CompareTimeSpec(now: int, fileTime: int, s: Ast.TimeSpec, unit: nat): bool
    requires unit > 0
  {
    if fileTime > now then false
    else Compare(s.sign, Elapsed(now, fileTime, unit), s.value)
  }

  /** `match_amin` ... `match_mtime`. */
  function MatchTime(h: Host, s: Ast.TimeSpec, entry: Entry, field: TimeField, unit: nat): bool
    requires unit > 0
  {
    match entry.metadata
    case None => false
    case Some(m) =>
      match TimeOf(m, field)
      case None => false
      case Some(t) => CompareTimeSpec(h.now, t, s, unit)
  }

  /** `compare_file_times`: strictly newer than the file at `filePath`;
      any lookup that fails makes the test false. */
  function CompareFileTimes(h: Host, entry: Entry, filePath: string, field: TimeField): bool
  {
    match entry.metadata
    case None => false
    case Some(m) =>
      match TimeOf(m, field)
      case None => false
      case Some(entryTime) =>
        match h.metadataAt(filePath)
        case None => false
        case Some(refMeta) =>
          match TimeOf(refMeta, field)
          case None => false
          case Some(refTime) => entryTime > refTime
  }

  // ---------------------------------------------------------------------
  // Owners.

  /** `match_user` (`byUser`) and `match_group`: a name that reads as a
      `u32` is an id; any other name matches only when it equals the
      environment variable and the file's id is the process's own. */
  function MatchOwner(name: string, entry: Entry, envName: Option<string>, processId: u32, byUser: bool): bool
  {
    match entry.metadata
    case None => false
    case Some(m) =>
      var fileId := if byUser then m.uid else m.gid;
      match ParseU32(name)
      case Some(target) => fileId == target
      case None => envName == Some(name) && fileId == processId
  }
}
