/** What the evaluator of src/interpreter.rs promises, proved about the
    functions of module Interpreter. */
module InterpreterProperties {
  import opened Wrappers
  import opened Numbers
  import opened Interpreter
  import Ast

  // ---------------------------------------------------------------------
  // The boolean structure.

  lemma ConstantTests(h: Host, entry: Entry)
    ensures Evaluate(h, Ast.Test(Ast.True), entry)
    ensures !Evaluate(h, Ast.Test(Ast.False), entry)
  {
  }

  /** `-not` flips the outcome, so two of them cancel. */
  lemma DoubleNegation(h: Host, e: Ast.Expr, entry: Entry)
    requires Ast.PermFree(e)
    ensures Evaluate(h, Ast.Not(e), entry) == !Evaluate(h, e, entry)
    ensures Evaluate(h, Ast.Not(Ast.Not(e)), entry) == Evaluate(h, e, entry)
  {
  }

  /** Once the left operand of `-and` is false, the right one cannot change
      the outcome; once it is true, the right one decides. */
  lemma AndShortCircuit(h: Host, l: Ast.Expr, r1: Ast.Expr, r2: Ast.Expr, entry: Entry)
    requires Ast.PermFree(l) && Ast.PermFree(r1) && Ast.PermFree(r2)
    ensures !Evaluate(h, l, entry) ==> !Evaluate(h, Ast.And(l, r1), entry) && !Evaluate(h, Ast.And(l, r2), entry)
    ensures Evaluate(h, l, entry) ==> Evaluate(h, Ast.And(l, r1), entry) == Evaluate(h, r1, entry)
  {
  }

  /** Once the left operand of `-or` is true, the right one cannot change
      the outcome; once it is false, the right one decides. */
  lemma OrShortCircuit(h: Host, l: Ast.Expr, r1: Ast.Expr, r2: Ast.Expr, entry: Entry)
    requires Ast.PermFree(l) && Ast.PermFree(r1) && Ast.PermFree(r2)
    ensures Evaluate(h, l, entry) ==> Evaluate(h, Ast.Or(l, r1), entry) && Evaluate(h, Ast.Or(l, r2), entry)
    ensures !Evaluate(h, l, entry) ==> Evaluate(h, Ast.Or(l, r1), entry) == Evaluate(h, r1, entry)
  {
  }

  /** The two evaluations give every leaf test the same outcome. */
  predicate LeavesAgree(h1: Host, x1: Entry, h2: Host, x2: Entry, ts: seq<Ast.Test>)
  {
    forall k :: 0 <= k < |ts| ==> ts[k].Perm? || EvaluateTest(h1, ts[k], x1) == EvaluateTest(h2, ts[k], x2)
  }

  lemma LeavesAgreeSplit(h1: Host, x1: Entry, h2: Host, x2: Entry, a: seq<Ast.Test>, b: seq<Ast.Test>)
    requires LeavesAgree(h1, x1, h2, x2, a + b)
    ensures LeavesAgree(h1, x1, h2, x2, a) && LeavesAgree(h1, x1, h2, x2, b)
  {
    forall k | 0 <= k < |a| ensures a[k].Perm? || EvaluateTest(h1, a[k], x1) == EvaluateTest(h2, a[k], x2) {
      assert (a + b)[k] == a[k];
    }
    forall k | 0 <= k < |b| ensures b[k].Perm? || EvaluateTest(h1, b[k], x1) == EvaluateTest(h2, b[k], x2) {
      assert (a + b)[|a| + k] == b[k];
    }
  }

  /** Tests have no side effects, so an expression's value is decided by
      the outcomes of its leaf tests alone, whatever the order in which
      `&&` and `||` look at them. */
  lemma {:induction false} LeavesDecide(h1: Host, x1: Entry, h2: Host, x2: Entry, e: Ast.Expr)
    requires Ast.PermFree(e)
    requires LeavesAgree(h1, x1, h2, x2, Ast.Leaves(e))
    ensures Evaluate(h1, e, x1) == Evaluate(h2, e, x2)
  {
    match e
    case Not(x) =>
      LeavesDecide(h1, x1, h2, x2, x);
    case And(l, r) =>
      LeavesAgreeSplit(h1, x1, h2, x2, Ast.Leaves(l), Ast.Leaves(r));
      LeavesDecide(h1, x1, h2, x2, l);
      LeavesDecide(h1, x1, h2, x2, r);
    case Or(l, r) =>
      LeavesAgreeSplit(h1, x1, h2, x2, Ast.Leaves(l), Ast.Leaves(r));
      LeavesDecide(h1, x1, h2, x2, l);
      LeavesDecide(h1, x1, h2, x2, r);
    case Test(t) =>
      assert Ast.Leaves(e)[0] == t;
  }

  // ---------------------------------------------------------------------
  // Metadata.

  /** The tests that look at the entry's metadata. */
  predicate ReadsMetadata(t: Ast.Test)
  {
    || t.Type? || t.Size? || t.Empty?
    || t.Amin? || t.Atime? || t.Ctime? || t.Cmin? || t.Mmin? || t.Mtime?
    || t.Anewer? || t.Cnewer? || t.Mnewer? || t.Newer?
    || t.User? || t.Group? || t.Uid? || t.Gid?
  }

  /** Unreadable metadata makes every test that needs it false. */
  lemma MissingMetadataFails(h: Host, t: Ast.Test, entry: Entry)
    requires !t.Perm? && ReadsMetadata(t) && entry.metadata.None?
    ensures !EvaluateTest(h, t, entry)
  {
  }

  /** The other tests never look at the metadata. */
  lemma OtherTestsIgnoreMetadata(h: Host, t: Ast.Test, entry: Entry, m: Option<Metadata>)
    requires !t.Perm? && !ReadsMetadata(t)
    ensures EvaluateTest(h, t, entry) == EvaluateTest(h, t, entry.(metadata := m))
  {
  }

  // ---------------------------------------------------------------------
  // Names, paths and patterns.

  lemma LowerIdempotent(s: string)
    ensures Lower(Lower(s)) == Lower(s)
  {
  }

  /** A glob that does not compile matches nothing, in any of the four
      glob tests. */
  lemma InvalidGlobMatchesNothing(h: Host, p: string, entry: Entry)
    requires !h.globCompiles(p)
    ensures !EvaluateTest(h, Ast.Path(p), entry) && !EvaluateTest(h, Ast.Ipath(p), entry)
    ensures !EvaluateTest(h, Ast.Name(p), entry) && !EvaluateTest(h, Ast.Iname(p), entry)
  {
  }

  /** `-iname` is `-name` on the lowercased file name, with the pattern as
      written; names that differ only in letter case are matched alike. */
  lemma InameIsNameOfLowered(h: Host, p: string, entry: Entry, other: string)
    ensures EvaluateTest(h, Ast.Iname(p), entry) == EvaluateTest(h, Ast.Name(p), entry.(fileName := Lower(entry.fileName)))
    ensures Lower(other) == Lower(entry.fileName) ==>
              EvaluateTest(h, Ast.Iname(p), entry) == EvaluateTest(h, Ast.Iname(p), entry.(fileName := other))
  {
    LowerIdempotent(entry.fileName);
  }

  /** `-ipath` is `-path` on the lowercased path. */
  lemma IpathIsPathOfLowered(h: Host, p: string, entry: Entry)
    ensures EvaluateTest(h, Ast.Ipath(p), entry) == EvaluateTest(h, Ast.Path(p), entry.(path := Lower(entry.path)))
  {
    LowerIdempotent(entry.path);
  }

  /** `-path` and `-regex` look at the whole path and `-name` at the last
      component, each as written; a pattern that does not compile matches
      nothing. */
  lemma PatternTestTargets(h: Host, p: string, entry: Entry)
    ensures EvaluateTest(h, Ast.Path(p), entry) <==> h.globCompiles(p) && h.globMatches(p, entry.path)
    ensures EvaluateTest(h, Ast.Name(p), entry) <==> h.globCompiles(p) && h.globMatches(p, entry.fileName)
    ensures EvaluateTest(h, Ast.Regex(p), entry) <==> h.regexCompiles(p) && h.regexMatches(p, entry.path)
  {
  }

  /** `-iregex p` is `-regex (?i)p` on the same, whole, path. */
  lemma IregexIsFlaggedRegex(h: Host, p: string, entry: Entry)
    ensures EvaluateTest(h, Ast.Iregex(p), entry) == EvaluateTest(h, Ast.Regex("(?i)" + p), entry)
    ensures EvaluateTest(h, Ast.Iregex(p), entry) <==>
              h.regexCompiles("(?i)" + p) && h.regexMatches("(?i)" + p, entry.path)
    ensures !h.regexCompiles("(?i)" + p) ==> !EvaluateTest(h, Ast.Iregex(p), entry)
  {
  }

  // ---------------------------------------------------------------------
  // Type.

  /** An entry with readable metadata has exactly one of the seven types;
      one without matches none. */
  lemma OneTypePerEntry(h: Host, a: Ast.FileType, b: Ast.FileType, entry: Entry)
    ensures EvaluateTest(h, Ast.Type(a), entry) && EvaluateTest(h, Ast.Type(b), entry) ==> a == b
    ensures entry.metadata.Some? ==> EvaluateTest(h, Ast.Type(entry.metadata.value.kind), entry)
    ensures entry.metadata.None? ==> !EvaluateTest(h, Ast.Type(a), entry)
  {
  }

  // ---------------------------------------------------------------------
  // Size.

  /** Each suffix is a fixed number of bytes; `k`, `M` and `G` are
      successive factors of 1024 and no suffix means blocks. */
  lemma MultiplierLadder()
    ensures Multiplier(Some(Ast.Bytes)) == 1
    ensures Multiplier(Some(Ast.Words)) == 2 * Multiplier(Some(Ast.Bytes))
    ensures Multiplier(Some(Ast.Kb)) == 1024 * Multiplier(Some(Ast.Bytes))
    ensures Multiplier(Some(Ast.Mb)) == 1024 * Multiplier(Some(Ast.Kb))
    ensures Multiplier(Some(Ast.Gb)) == 1024 * Multiplier(Some(Ast.Mb))
    ensures Multiplier(Some(Ast.Blocks)) == Multiplier(None) == 512
  {
  }

  /** The same size written in a smaller unit gives the same target. */
  lemma KilobytesAreBytes(sign: Ast.Sign, v: u64)
    requires v * 1024 < U64_LIMIT
    ensures CalculateSizeInBytes(Ast.SizeSpec(sign, v, Some(Ast.Kb)))
         == CalculateSizeInBytes(Ast.SizeSpec(sign, v * 1024, Some(Ast.Bytes)))
  {
  }

  /** A larger count never gives a smaller target, and the target is a
      whole number of units. */
  lemma SizeTargetMonotone(sign: Ast.Sign, v: u64, w: u64, suffix: Option<Ast.SizeSuffix>)
    requires v <= w
    ensures CalculateSizeInBytes(Ast.SizeSpec(sign, v, suffix)) <= CalculateSizeInBytes(Ast.SizeSpec(sign, w, suffix))
    ensures CalculateSizeInBytes(Ast.SizeSpec(sign, v, suffix)) % Multiplier(suffix) == 0
  {
    var m := Multiplier(suffix);
    MulMonotone(v, w, m);
    DivUnique(v * m, m, v, 0);
  }

  /** The target of `-size` is the count times the bytes per unit. `N`
      holds for a length equal to it, `+N` for a larger and `-N` for a
      smaller one, so with readable metadata exactly one of the three
      matches; without it none does. */
  lemma SizeSignTrichotomy(v: u64, suffix: Option<Ast.SizeSuffix>, entry: Entry)
    ensures var exact := MatchSize(Ast.SizeSpec(Ast.Sign.None, v, suffix), entry);
            var more := MatchSize(Ast.SizeSpec(Ast.Sign.Plus, v, suffix), entry);
            var less := MatchSize(Ast.SizeSpec(Ast.Sign.Minus, v, suffix), entry);
            if entry.metadata.Some? then (exact || more || less) && !(exact && more) && !(exact && less) && !(more && less)
            else !exact && !more && !less
    ensures entry.metadata.Some? ==>
              var len := entry.metadata.value.len;
              var target := v * Multiplier(suffix);
              && (MatchSize(Ast.SizeSpec(Ast.Sign.None, v, suffix), entry) <==> len == target)
              && (MatchSize(Ast.SizeSpec(Ast.Sign.Plus, v, suffix), entry) <==> len > target)
              && (MatchSize(Ast.SizeSpec(Ast.Sign.Minus, v, suffix), entry) <==> len < target)
  {
  }

  /** A file of 1024 bytes is `1k`, more than one byte, less than `2k`,
      two 512-byte blocks, and not 2048 bytes. */
  lemma SizeExamples(h: Host, entry: Entry)
    requires entry.metadata.Some? && entry.metadata.value.len == 1024
    ensures EvaluateTest(h, Ast.Size(Ast.SizeSpec(Ast.Sign.None, 1, Some(Ast.Kb))), entry)
    ensures EvaluateTest(h, Ast.Size(Ast.SizeSpec(Ast.Sign.Plus, 1, Some(Ast.Bytes))), entry)
    ensures EvaluateTest(h, Ast.Size(Ast.SizeSpec(Ast.Sign.Minus, 2, Some(Ast.Kb))), entry)
    ensures EvaluateTest(h, Ast.Size(Ast.SizeSpec(Ast.Sign.None, 2, None)), entry)
    ensures !EvaluateTest(h, Ast.Size(Ast.SizeSpec(Ast.Sign.None, 2048, Some(Ast.Bytes))), entry)
  {
  }

  /** `-empty` holds exactly when the metadata is readable and the length
      is zero, which is `-size 0` in any unit. */
  lemma EmptyIsSizeZero(h: Host, suffix: Option<Ast.SizeSuffix>, entry: Entry)
    ensures EvaluateTest(h, Ast.Empty, entry) <==> entry.metadata.Some? && entry.metadata.value.len == 0
    ensures EvaluateTest(h, Ast.Empty, entry) == EvaluateTest(h, Ast.Size(Ast.SizeSpec(Ast.Sign.None, 0, suffix)), entry)
  {
  }

  // ---------------------------------------------------------------------
  // Time.

  /** A multiple of a positive `d` that lies strictly between `-d` and `d`
      is zero. */
  lemma ZeroMultiple(d: int, k: int)
    requires d > 0 && -d < d * k < d
    ensures k == 0
  {
  }

  lemma DivMod(x: int, d: int)
    requires d > 0
    ensures x == d * (x / d) + x % d && 0 <= x % d < d
  {
  }

  /** Quotient and remainder are unique. */
  lemma DivUnique(x: int, d: int, q: int, r: int)
    requires d > 0 && 0 <= r < d && x == d * q + r
    ensures x / d == q && x % d == r
  {
    DivMod(x, d);
    var q' := x / d;
    assert d * (q - q') == x % d - r;
    ZeroMultiple(d, q - q');
  }

  lemma MulRegroup(a: int, b: int, q: int, r: int)
    ensures a * (b * q + r) == (a * b) * q + a * r
  {
  }

  lemma MulBelow(a: int, r: int, b: int)
    requires a > 0 && 0 <= r < b
    ensures a * r + a <= a * b
  {
    MulMonotone(r + 1, b, a);
    assert (r + 1) * a == r * a + a;
  }

  lemma {:induction false} MulMonotone(v: int, w: int, m: nat)
    ensures v <= w ==> v * m <= w * m
    decreases m
  {
    if m > 0 {
      MulMonotone(v, w, m - 1);
      assert v * m == v * (m - 1) + v;
      assert w * m == w * (m - 1) + w;
    }
  }

  /** Dividing by `a` and then by `b`, each rounding down, is dividing by
      `a * b` once. */
  lemma DivDiv(x: nat, a: nat, b: nat)
    requires a > 0 && b > 0
    ensures x / a / b == x / (a * b)
  {
    var q1, r1 := x / a, x % a;
    DivMod(x, a);
    var q2, r2 := q1 / b, q1 % b;
    DivMod(q1, b);
    MulRegroup(a, b, q2, r2);
    MulBelow(a, r2, b);
    DivUnique(x, a * b, q2, a * r2 + r1);
  }

  /** `Elapsed` counts the whole units of time since the file time: it is
      the largest n with n units at most the time difference. */
  lemma ElapsedBounds(now: int, fileTime: int, unit: nat)
    requires fileTime <= now && unit > 0
    ensures var n := Elapsed(now, fileTime, unit);
            n * (unit * NANOS_PER_SECOND) <= now - fileTime < (n + 1) * (unit * NANOS_PER_SECOND)
  {
    var x: nat := now - fileTime;
    var d := NANOS_PER_SECOND * unit;
    DivDiv(x, NANOS_PER_SECOND, unit);
    var n := x / d;
    assert x == d * n + x % d;
    assert n * (unit * NANOS_PER_SECOND) == d * n;
    assert (n + 1) * (unit * NANOS_PER_SECOND) == d * n + d;
  }

  /** Whole days elapsed are whole minutes elapsed, divided by 1440. */
  lemma DaysFromMinutes(now: int, fileTime: int)
    requires fileTime <= now
    ensures Elapsed(now, fileTime, DAY) == Elapsed(now, fileTime, MINUTE) / 1440
  {
    var secs := (now - fileTime) / NANOS_PER_SECOND;
    DivDiv(secs, MINUTE, 1440);
  }

  /** A file time later than `now`, or a missing one, never matches. */
  lemma FutureOrMissingTimeFails(h: Host, s: Ast.TimeSpec, entry: Entry, field: TimeField, unit: nat)
    requires unit > 0 && entry.metadata.Some?
    requires TimeOf(entry.metadata.value, field).None? || TimeOf(entry.metadata.value, field).value > h.now
    ensures !MatchTime(h, s, entry, field, unit)
  {
  }

  /** Where a time difference `d` lies for a count `v` of units `u`: in
      the `v`-th unit (no sign), beyond it (`+`, older) or before it (`-`,
      more recent). */
  predicate InWindow(sign: Ast.Sign, v: nat, d: int, u: nat)
  {
    match sign
    case None => v * u <= d < (v + 1) * u
    case Plus => d >= (v + 1) * u
    case Minus => d < v * u
  }

  /** A readable timestamp `t`, no later than `now`, whose age lies in the
      window of the spec, in units of `seconds`. */
  predicate WithinSpec(now: int, t: Option<int>, s: Ast.TimeSpec, seconds: nat)
  {
    t.Some? && t.value <= now && InWindow(s.sign, s.value, now - t.value, seconds * NANOS_PER_SECOND)
  }

  /** Comparing the whole number of units elapsed with `v` is asking in
      which window the difference itself lies. */
  lemma WindowOfElapsed(sign: Ast.Sign, n: nat, v: nat, d: int, u: nat)
    requires u > 0 && n * u <= d < (n + 1) * u
    ensures Compare(sign, n, v) <==> InWindow(sign, v, d, u)
  {
    if n > v {
      MulMonotone(v + 1, n, u);
    } else if n < v {
      MulMonotone(n + 1, v, u);
    }
    assert (v + 1) * u == v * u + u;
  }

  /** A time test holds exactly when the timestamp it reads exists, is not
      in the future, and its age lies in the spec's window. */
  lemma MatchTimeWindow(h: Host, s: Ast.TimeSpec, entry: Entry, field: TimeField, unit: nat)
    requires unit > 0
    ensures MatchTime(h, s, entry, field, unit) <==>
              entry.metadata.Some? && WithinSpec(h.now, TimeOf(entry.metadata.value, field), s, unit)
  {
    if entry.metadata.Some? && TimeOf(entry.metadata.value, field).Some? {
      var t := TimeOf(entry.metadata.value, field).value;
      if t <= h.now {
        ElapsedBounds(h.now, t, unit);
        WindowOfElapsed(s.sign, Elapsed(h.now, t, unit), s.value, h.now - t, unit * NANOS_PER_SECOND);
      }
    }
  }

  /** The six time tests: `-amin`/`-atime` read the access time,
      `-cmin`/`-ctime` the creation time and `-mmin`/`-mtime` the
      modification time, in minutes and in days respectively. */
  lemma TimeTestWindows(h: Host, s: Ast.TimeSpec, entry: Entry)
    ensures EvaluateTest(h, Ast.Amin(s), entry) <==>
              entry.metadata.Some? && WithinSpec(h.now, entry.metadata.value.accessed, s, 60)
    ensures EvaluateTest(h, Ast.Atime(s), entry) <==>
              entry.metadata.Some? && WithinSpec(h.now, entry.metadata.value.accessed, s, 86400)
    ensures EvaluateTest(h, Ast.Cmin(s), entry) <==>
              entry.metadata.Some? && WithinSpec(h.now, entry.metadata.value.created, s, 60)
    ensures EvaluateTest(h, Ast.Ctime(s), entry) <==>
              entry.metadata.Some? && WithinSpec(h.now, entry.metadata.value.created, s, 86400)
    ensures EvaluateTest(h, Ast.Mmin(s), entry) <==>
              entry.metadata.Some? && WithinSpec(h.now, entry.metadata.value.modified, s, 60)
    ensures EvaluateTest(h, Ast.Mtime(s), entry) <==>
              entry.metadata.Some? && WithinSpec(h.now, entry.metadata.value.modified, s, 86400)
  {
    MatchTimeWindow(h, s, entry, Accessed, MINUTE);
    MatchTimeWindow(h, s, entry, Accessed, DAY);
    MatchTimeWindow(h, s, entry, Created, MINUTE);
    MatchTimeWindow(h, s, entry, Created, DAY);
    MatchTimeWindow(h, s, entry, Modified, MINUTE);
    MatchTimeWindow(h, s, entry, Modified, DAY);
  }

  /** With a readable time in the past, exactly one of `N`, `+N` and `-N`
      matches: `+N` the files older than N + 1 whole units, `-N` those
      younger than N units. */
  lemma TimeSignTrichotomy(h: Host, v: u64, entry: Entry, field: TimeField, unit: nat)
    requires unit > 0 && entry.metadata.Some?
    requires TimeOf(entry.metadata.value, field).Some? && TimeOf(entry.metadata.value, field).value <= h.now
    ensures var exact := MatchTime(h, Ast.TimeSpec(Ast.Sign.None, v), entry, field, unit);
            var more := MatchTime(h, Ast.TimeSpec(Ast.Sign.Plus, v), entry, field, unit);
            var less := MatchTime(h, Ast.TimeSpec(Ast.Sign.Minus, v), entry, field, unit);
            (exact || more || less) && !(exact && more) && !(exact && less) && !(more && less)
    ensures var d := h.now - TimeOf(entry.metadata.value, field).value;
            var u := unit * NANOS_PER_SECOND;
            && (MatchTime(h, Ast.TimeSpec(Ast.Sign.Plus, v), entry, field, unit) <==> d >= (v + 1) * u)
            && (MatchTime(h, Ast.TimeSpec(Ast.Sign.Minus, v), entry, field, unit) <==> d < v * u)
  {
    MatchTimeWindow(h, Ast.TimeSpec(Ast.Sign.Plus, v), entry, field, unit);
    MatchTimeWindow(h, Ast.TimeSpec(Ast.Sign.Minus, v), entry, field, unit);
  }

  /** `-mmin N` picks out the files modified between N and N + 1 minutes
      ago, counted in whole seconds. */
  lemma MminWindow(h: Host, v: u64, entry: Entry)
    requires entry.metadata.Some? && entry.metadata.value.modified.Some?
    ensures EvaluateTest(h, Ast.Mmin(Ast.TimeSpec(Ast.Sign.None, v)), entry) <==>
              var t := entry.metadata.value.modified.value;
              t <= h.now && v * (MINUTE * NANOS_PER_SECOND) <= h.now - t < (v + 1) * (MINUTE * NANOS_PER_SECOND)
  {
    var t := entry.metadata.value.modified.value;
    if t <= h.now {
      ElapsedBounds(h.now, t, MINUTE);
      var n := Elapsed(h.now, t, MINUTE);
      var d := MINUTE * NANOS_PER_SECOND;
    }
  }

  // ---------------------------------------------------------------------
  // Newer.

  lemma NewerIsMnewer(h: Host, f: string, entry: Entry)
    ensures EvaluateTest(h, Ast.Newer(f), entry) == EvaluateTest(h, Ast.Mnewer(f), entry)
  {
  }

  /** Both timestamps exist and the first is strictly later. */
  predicate Later(a: Option<int>, b: Option<int>)
  {
    a.Some? && b.Some? && a.value > b.value
  }

  /** `-anewer` compares access times, `-cnewer` creation times and
      `-mnewer` modification times, of the entry and of the named file. */
  lemma NewerFields(h: Host, f: string, entry: Entry)
    ensures EvaluateTest(h, Ast.Anewer(f), entry) <==>
              entry.metadata.Some? && h.metadataAt(f).Some? && Later(entry.metadata.value.accessed, h.metadataAt(f).value.accessed)
    ensures EvaluateTest(h, Ast.Cnewer(f), entry) <==>
              entry.metadata.Some? && h.metadataAt(f).Some? && Later(entry.metadata.value.created, h.metadataAt(f).value.created)
    ensures EvaluateTest(h, Ast.Mnewer(f), entry) <==>
              entry.metadata.Some? && h.metadataAt(f).Some? && Later(entry.metadata.value.modified, h.metadataAt(f).value.modified)
  {
  }

  /** A newer test holds exactly when all four lookups succeed and the
      entry's time is strictly later. */
  lemma NewerNeedsAllLookups(h: Host, entry: Entry, f: string, field: TimeField)
    ensures CompareFileTimes(h, entry, f, field) <==>
              && entry.metadata.Some? && TimeOf(entry.metadata.value, field).Some?
              && h.metadataAt(f).Some? && TimeOf(h.metadataAt(f).value, field).Some?
              && TimeOf(entry.metadata.value, field).value > TimeOf(h.metadataAt(f).value, field).value
  {
  }

  /** Of two entries, each the other's reference, at most one is newer;
      neither is when their times are equal, so no file is newer than
      itself. */
  lemma NewerAsymmetric(h: Host, a: Entry, b: Entry, field: TimeField)
    requires h.metadataAt(a.path) == a.metadata && h.metadataAt(b.path) == b.metadata
    ensures !(CompareFileTimes(h, a, b.path, field) && CompareFileTimes(h, b, a.path, field))
    ensures !CompareFileTimes(h, a, a.path, field)
  {
  }

  // ---------------------------------------------------------------------
  // Owners.

  /** `-uid n` holds for the file's own uid and for no other value;
      likewise `-gid n`. */
  lemma IdTestsPickTheOwner(h: Host, n: u32, entry: Entry)
    requires entry.metadata.Some?
    ensures EvaluateTest(h, Ast.Uid(n), entry) <==> n == entry.metadata.value.uid
    ensures EvaluateTest(h, Ast.Gid(n), entry) <==> n == entry.metadata.value.gid
  {
  }

  /** A `-user` name that reads as a number is a `-uid`; likewise for
      groups. */
  lemma NumericOwnerIsId(h: Host, name: string, n: u32, entry: Entry)
    requires ParseU32(name) == Some(n)
    ensures EvaluateTest(h, Ast.Test.User(name), entry) == EvaluateTest(h, Ast.Uid(n), entry)
    ensures EvaluateTest(h, Ast.Test.Group(name), entry) == EvaluateTest(h, Ast.Gid(n), entry)
  {
  }

  /** Any other name matches only the current user's own files, and only
      when it is the value of `USER`; likewise `GROUP` for groups. */
  lemma NamedOwnerIsCurrent(h: Host, name: string, entry: Entry)
    requires ParseU32(name).None?
    ensures EvaluateTest(h, Ast.Test.User(name), entry) <==>
              entry.metadata.Some? && h.userVar == Some(name) && entry.metadata.value.uid == h.processUid
    ensures EvaluateTest(h, Ast.Test.Group(name), entry) <==>
              entry.metadata.Some? && h.groupVar == Some(name) && entry.metadata.value.gid == h.processGid
  {
  }

  /** A leading `+` is accepted by the number parser, so `-user +N` is
      `-uid N`. */
  lemma SignedUserNameIsUid(h: Host, n: u32, entry: Entry)
    ensures EvaluateTest(h, Ast.Test.User("+" + ToDigits(n, 10)), entry) == EvaluateTest(h, Ast.Uid(n), entry)
  {
    ParseU32Decimal(n);
    PlusPrefixAccepted(ToDigits(n, 10), 10, U32_LIMIT);
    assert "+" + ToDigits(n, 10) == ['+'] + ToDigits(n, 10);
  }
}
