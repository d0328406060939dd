/** What the compiler of src/parser.rs promises, proved about the functions
    of module Parser. */
module ParserProperties {
  import opened Wrappers
  import opened Numbers
  import opened Parser
  import Ast

  // ---------------------------------------------------------------------
  // The two left folds.

  /** `left` and-ed with each operand in turn: ((left AND o1) AND o2) ... */
  function FoldAnd(left: Ast.Expr, operands: seq<Ast.Expr>): Ast.Expr
    decreases |operands|
  {
    if operands == [] then left else FoldAnd(Ast.And(left, operands[0]), operands[1..])
  }

  function FoldOr(left: Ast.Expr, operands: seq<Ast.Expr>): Ast.Expr
    decreases |operands|
  {
    if operands == [] then left else FoldOr(Ast.Or(left, operands[0]), operands[1..])
  }

  /** From child `i` on, the children are `Expr` nodes compiling to
      `operands`, one each. */
  predicate AdjacentOperands(p: Pair, i: nat, operands: seq<Ast.Expr>)
    requires ChainWf(p) && 1 <= i <= |p.children|
    decreases |operands|
  {
    if operands == [] then i == |p.children|
    else
      && i < |p.children|
      && p.children[i].rule == Expr && ParseExpr(p.children[i]) == Ok(operands[0])
      && AdjacentOperands(p, i + 1, operands[1..])
  }

  /** From child `i` on, the children alternate: the operator `op`, then an
      operand compiling to the next of `operands`. */
  predicate OperatorOperands(p: Pair, i: nat, op: Rule, operands: seq<Ast.Expr>)
    requires ChainWf(p) && 1 <= i <= |p.children|
    decreases |operands|
  {
    if operands == [] then i == |p.children|
    else
      && i + 1 < |p.children|
      && p.children[i].rule == op && ParseExpr(p.children[i + 1]) == Ok(operands[0])
      && OperatorOperands(p, i + 2, op, operands[1..])
  }

  /** Implicit adjacency: when every remaining child is an `Expr` node, the
      loop and-s their results onto `left` from the left. */
  lemma {:induction false} AdjacentOperandsFoldLeft(p: Pair, i: nat, left: Ast.Expr, operands: seq<Ast.Expr>)
    requires ChainWf(p) && 1 <= i <= |p.children|
    requires AdjacentOperands(p, i, operands)
    ensures AndChainFrom(p, i, left) == Ok(FoldAnd(left, operands))
    decreases |operands|
  {
    if operands != [] {
      AdjacentOperandsFoldLeft(p, i + 1, Ast.And(left, operands[0]), operands[1..]);
    }
  }

  /** One step of the `-and` loop: an operator followed by an operand. */
  lemma AndOperatorStep(p: Pair, i: nat, left: Ast.Expr, right: Ast.Expr)
    requires ChainWf(p) && 1 <= i && i + 1 < |p.children|
    requires p.children[i].rule == AndOperator && ParseExpr(p.children[i + 1]) == Ok(right)
    ensures AndChainFrom(p, i, left) == AndChainFrom(p, i + 2, Ast.And(left, right))
  {
  }

  /** Explicit `-and`: operator, operand, operator, operand ... folds the same
      way. */
  lemma {:induction false} ExplicitAndFoldsLeft(p: Pair, i: nat, left: Ast.Expr, operands: seq<Ast.Expr>)
    requires ChainWf(p) && 1 <= i <= |p.children|
    requires OperatorOperands(p, i, AndOperator, operands)
    ensures AndChainFrom(p, i, left) == Ok(FoldAnd(left, operands))
    decreases |operands|
  {
    if operands != [] {
      AndOperatorStep(p, i, left, operands[0]);
      ExplicitAndFoldsLeft(p, i + 2, Ast.And(left, operands[0]), operands[1..]);
    }
  }

  /** One step of the `-or` loop. */
  lemma OrOperatorStep(p: Pair, i: nat, left: Ast.Expr, right: Ast.Expr)
    requires ChainWf(p) && 1 <= i && i + 1 < |p.children|
    requires p.children[i].rule == OrOperator && ParseExpr(p.children[i + 1]) == Ok(right)
    ensures OrChainFrom(p, i, left) == OrChainFrom(p, i + 2, Ast.Or(left, right))
  {
  }

  /** `-or` folds left in the same way. */
  lemma {:induction false} OrFoldsLeft(p: Pair, i: nat, left: Ast.Expr, operands: seq<Ast.Expr>)
    requires ChainWf(p) && 1 <= i <= |p.children|
    requires OperatorOperands(p, i, OrOperator, operands)
    ensures OrChainFrom(p, i, left) == Ok(FoldOr(left, operands))
    decreases |operands|
  {
    if operands != [] {
      OrOperatorStep(p, i, left, operands[0]);
      OrFoldsLeft(p, i + 2, Ast.Or(left, operands[0]), operands[1..]);
    }
  }

  lemma FoldAndTwo(a: Ast.Expr, b: Ast.Expr, c: Ast.Expr)
    ensures FoldAnd(a, [b, c]) == Ast.And(Ast.And(a, b), c)
  {
    var ops := [b, c];
    assert ops[0] == b && ops[1..] == [c];
    assert FoldAnd(a, ops) == FoldAnd(Ast.And(a, b), [c]);
    assert [c][0] == c && [c][1..] == [];
    assert FoldAnd(Ast.And(a, b), [c]) == FoldAnd(Ast.And(Ast.And(a, b), c), []);
  }

  /** Three adjacent terms t1 t2 t3 give And(And(t1, t2), t3). */
  lemma ThreeAdjacentTermsAssociateLeft(p: Pair, a: Ast.Expr, b: Ast.Expr, c: Ast.Expr)
    requires ChainWf(p) && |p.children| == 3
    requires ParseTerm(p.children[0]) == Ok(a)
    requires p.children[1].rule == Expr && ParseExpr(p.children[1]) == Ok(b)
    requires p.children[2].rule == Expr && ParseExpr(p.children[2]) == Ok(c)
    ensures AndChain(p) == Ok(Ast.And(Ast.And(a, b), c))
  {
    FoldAndTwo(a, b, c);
    AdjacentOperandsFoldLeft(p, 1, a, [b, c]);
  }

  /** t1 -and t2 -and t3 gives the same And(And(t1, t2), t3). */
  lemma ThreeExplicitTermsAssociateLeft(q: Pair, a: Ast.Expr, b: Ast.Expr, c: Ast.Expr)
    requires ChainWf(q) && |q.children| == 5
    requires ParseTerm(q.children[0]) == Ok(a)
    requires q.children[1].rule == AndOperator && ParseExpr(q.children[2]) == Ok(b)
    requires q.children[3].rule == AndOperator && ParseExpr(q.children[4]) == Ok(c)
    ensures AndChain(q) == Ok(Ast.And(Ast.And(a, b), c))
  {
    FoldAndTwo(a, b, c);
    AndOperatorStep(q, 1, a, b);
    AndOperatorStep(q, 3, Ast.And(a, b), c);
  }

  /** An explicit `-and` and implicit adjacency build the same `And` node:
      at an `AndOperator` followed by `X` in one chain, and at the `Expr`
      node `X` in another, both loops fail with the same error or and `X`
      onto the same `left` and go on after `X`. */
  lemma ExplicitAndIsImplicitAnd(p: Pair, i: nat, q: Pair, j: nat, left: Ast.Expr)
    requires ChainWf(p) && 1 <= i && i + 1 < |p.children|
    requires ChainWf(q) && 1 <= j < |q.children|
    requires p.children[i].rule == AndOperator
    requires q.children[j].rule == Expr && p.children[i + 1] == q.children[j]
    ensures var x := ParseExpr(q.children[j]);
      && (x.Err? ==> AndChainFrom(p, i, left) == Err(x.error) == AndChainFrom(q, j, left))
      && (x.Ok? ==>
            && AndChainFrom(p, i, left) == AndChainFrom(p, i + 2, Ast.And(left, x.value))
            && AndChainFrom(q, j, left) == AndChainFrom(q, j + 1, Ast.And(left, x.value)))
  {
  }

  /** A trailing `-and` or `-or` with no operand after it leaves `left`
      unchanged. */
  lemma TrailingOperatorIgnored(p: Pair, left: Ast.Expr)
    requires ChainWf(p) && |p.children| >= 2
    requires p.children[|p.children| - 1].rule == AndOperator
          || p.children[|p.children| - 1].rule == OrOperator
    ensures p.children[|p.children| - 1].rule == AndOperator ==> AndChainFrom(p, |p.children| - 1, left) == Ok(left)
    ensures p.children[|p.children| - 1].rule == OrOperator ==> OrChainFrom(p, |p.children| - 1, left) == Ok(left)
  {
  }

  /** `-not` wraps exactly the single term that follows it. */
  lemma NotWrapsOneTerm(p: Pair)
    requires |p.children| >= 2 && TermWf(p.children[1])
    ensures ParseUnaryExpr(p).Ok? <==> ParseTerm(p.children[1]).Ok?
    ensures ParseUnaryExpr(p).Ok? ==> ParseUnaryExpr(p).value == Ast.Not(ParseTerm(p.children[1]).value)
  {
  }

  // ---------------------------------------------------------------------
  // The program.

  /** Without a non-empty `Program` node or an `Expr` node there is nothing
      to compile, and the result is the "expected Program, found None"
      error. */
  lemma {:induction false} NoProgramIsError(pairs: seq<Pair>)
    requires ProgramWf(pairs)
    requires forall k :: 0 <= k < |pairs| ==>
               pairs[k].rule != Expr && (pairs[k].rule == Program ==> pairs[k].children == [])
    ensures ParseToAst(pairs) == Err(UnexpectedRule("Program", "None"))
  {
    if pairs != [] {
      NoProgramIsError(pairs[1..]);
    }
  }

  /** Nodes before the first usable one are skipped; the first usable one
      decides the result. */
  lemma {:induction false} FirstProgramCompiled(pairs: seq<Pair>, k: nat)
    requires ProgramWf(pairs) && k < |pairs|
    requires forall j :: 0 <= j < k ==>
               pairs[j].rule != Expr && (pairs[j].rule == Program ==> pairs[j].children == [])
    requires pairs[k].rule == Expr || (pairs[k].rule == Program && HasInner(pairs[k]))
    ensures pairs[k].rule == Program ==> ParseToAst(pairs) == ParseExpr(pairs[k].children[0])
    ensures pairs[k].rule == Expr ==> ParseToAst(pairs) == ParseExpr(pairs[k])
  {
    if k > 0 {
      FirstProgramCompiled(pairs[1..], k - 1);
    }
  }

  // ---------------------------------------------------------------------
  // Numeric arguments.

  /** `-uid abc` does not compile: the error carries the offending text. */
  lemma UidNotANumber()
    ensures ParseId("abc") == Err(InvalidNumber("abc"))
  {
    NonDigitRejected("abc", 10, U32_LIMIT, 0);
  }

  /** A `-uid`/`-gid` test whose argument is the decimal spelling of `n`
      compiles to `Uid(n)`/`Gid(n)`. */
  lemma IdTestsReadDecimal(n: u32, t: Pair, kw: Pair, arg: Pair)
    requires t.rule == Test && t.children == [kw] && kw.children == [arg]
    requires kw.rule == Uid || kw.rule == Gid
    requires arg.text == ToDigits(n, 10)
    ensures kw.rule == Uid ==> ParseTest(t) == Ok(Ast.Test.Uid(n))
    ensures kw.rule == Gid ==> ParseTest(t) == Ok(Ast.Test.Gid(n))
  {
    ParseU32Decimal(n);
  }

  /** A numeric permission term is read in base 8; text that is not an octal
      `u32` is `InvalidNumber`. */
  lemma NumericPermIsOctal(p: Pair, inner: Pair)
    requires p.children == [inner] && inner.rule == NumPermTerm
    ensures PermTermWf(p)
    ensures ParseOctalU32(inner.text).Some? ==> ParsePermTerm(p) == Ok(Ast.Numeric(ParseOctalU32(inner.text).value))
    ensures ParseOctalU32(inner.text).None? ==> ParsePermTerm(p) == Err(InvalidNumber(inner.text))
    ensures inner.text == "644" ==> ParsePermTerm(p) == Ok(Ast.Numeric(420))
  {
    OctalExamples();
  }

  // ---------------------------------------------------------------------
  // The scanning loops: defaults, last one wins, first error stops.

  /** The index of the last child from `i` on with the given rule. */
  function LastIndex(ch: seq<Pair>, i: nat, rule: Rule): (r: Option<nat>)
    requires i <= |ch|
    ensures r.None? ==> forall k :: i <= k < |ch| ==> ch[k].rule != rule
    ensures r.Some? ==> i <= r.value < |ch| && ch[r.value].rule == rule
                        && forall k :: r.value < k < |ch| ==> ch[k].rule != rule
    decreases |ch| - i
  {
    if i == |ch| then None
    else
      var later := LastIndex(ch, i + 1, rule);
      if later.Some? then later else if ch[i].rule == rule then Some(i) else None
  }

  /** A child of a size specification that the loop accepts. */
  predicate SizeChildOk(c: Pair)
  {
    && (c.rule == Number ==> ParseU64(c.text).Some?)
    && (c.rule == SizeSuffix ==> HasInner(c) && ParseSizeSuffix(c).Ok?)
  }

  /** One step of the size loop succeeds exactly on an acceptable child. */
  lemma SizeStepOkIff(c: Pair, acc: Ast.SizeSpec)
    requires c.rule == Sign || c.rule == SizeSuffix ==> HasInner(c)
    ensures SizeStep(c, acc).Ok? <==> SizeChildOk(c)
  {
  }

  /** The size loop succeeds exactly when every child is acceptable. */
  lemma {:induction false} SizeScanOkIff(ch: seq<Pair>, i: nat, acc: Ast.SizeSpec)
    requires SizeChildrenWf(ch) && i <= |ch|
    ensures SizeScan(ch, i, acc).Ok? <==> forall k :: i <= k < |ch| ==> SizeChildOk(ch[k])
    decreases |ch| - i
  {
    if i < |ch| {
      var step := SizeStep(ch[i], acc);
      SizeStepOkIff(ch[i], acc);
      if step.Ok? {
        SizeScanOkIff(ch, i + 1, step.value);
        assert SizeScan(ch, i, acc) == SizeScan(ch, i + 1, step.value);
        assert (forall k :: i <= k < |ch| ==> SizeChildOk(ch[k]))
          <==> (forall k :: i + 1 <= k < |ch| ==> SizeChildOk(ch[k]));
      } else {
        assert SizeScan(ch, i, acc).Err?;
      }
    }
  }


  /** The first unacceptable child decides the error: a `Number` that is not
      a `u64` gives `InvalidNumber` with its text. */
  lemma {:induction false} SizeScanFirstError(ch: seq<Pair>, i: nat, acc: Ast.SizeSpec, k: nat)
    requires SizeChildrenWf(ch) && i <= k < |ch|
    requires forall j :: i <= j < k ==> SizeChildOk(ch[j])
    requires ch[k].rule == Number && ParseU64(ch[k].text).None?
    ensures SizeScan(ch, i, acc) == Err(InvalidNumber(ch[k].text))
    decreases k - i
  {
    if i < k {
      assert SizeChildOk(ch[i]);
      SizeStepOkIff(ch[i], acc);
      SizeScanFirstError(ch, i + 1, SizeStep(ch[i], acc).value, k);
    } else {
      assert SizeStep(ch[i], acc) == Err(InvalidNumber(ch[i].text));
    }
  }

  /** Each field comes from the last child of its kind, and keeps its
      starting value when there is none. */
  lemma {:induction false} SizeScanLastWins(ch: seq<Pair>, i: nat, acc: Ast.SizeSpec)
    requires SizeChildrenWf(ch) && i <= |ch|
    requires SizeScan(ch, i, acc).Ok?
    ensures var s := SizeScan(ch, i, acc).value;
      && (LastIndex(ch, i, Sign).None? ==> s.sign == acc.sign)
      && (LastIndex(ch, i, Sign).Some? ==> s.sign == SignOf(ch[LastIndex(ch, i, Sign).value]))
      && (LastIndex(ch, i, Number).None? ==> s.value == acc.value)
      && (LastIndex(ch, i, Number).Some? ==> ParseU64(ch[LastIndex(ch, i, Number).value].text) == Some(s.value))
      && (LastIndex(ch, i, SizeSuffix).None? ==> s.suffix == acc.suffix)
      && (LastIndex(ch, i, SizeSuffix).Some? ==>
            s.suffix.Some? && ParseSizeSuffix(ch[LastIndex(ch, i, SizeSuffix).value]) == Ok(s.suffix.value))
    decreases |ch| - i
  {
    if i < |ch| {
      var c := ch[i];
      if c.rule == Sign {
        SizeScanLastWins(ch, i + 1, acc.(sign := SignOf(c)));
      } else if c.rule == Number {
        SizeScanLastWins(ch, i + 1, acc.(value := ParseU64(c.text).value));
      } else if c.rule == SizeSuffix {
        SizeScanLastWins(ch, i + 1, acc.(suffix := Some(ParseSizeSuffix(c).value)));
      } else {
        SizeScanLastWins(ch, i + 1, acc);
      }
    }
  }

  /** `parse_sizespec` defaults: sign none, value 0 and no suffix when the
      corresponding children are absent. */
  lemma SizeSpecDefaults(p: Pair)
    requires SizeChildrenWf(p.children) && SizeSpecOf(p).Ok?
    ensures LastIndex(p.children, 0, Sign).None? ==> SizeSpecOf(p).value.sign == Ast.Sign.None
    ensures LastIndex(p.children, 0, Number).None? ==> SizeSpecOf(p).value.value == 0
    ensures LastIndex(p.children, 0, SizeSuffix).None? ==> SizeSpecOf(p).value.suffix == None
  {
    SizeScanLastWins(p.children, 0, Ast.SizeSpec(Ast.Sign.None, 0, None));
  }

  /** The last `Sign` child decides the sign: `+` is Plus, `-` is Minus. */
  lemma SizeSignDecoded(p: Pair, k: nat)
    requires SizeChildrenWf(p.children) && SizeSpecOf(p).Ok?
    requires LastIndex(p.children, 0, Sign) == Some(k)
    ensures p.children[k].children[0].rule == Plus ==> SizeSpecOf(p).value.sign == Ast.Sign.Plus
    ensures p.children[k].children[0].rule == Minus ==> SizeSpecOf(p).value.sign == Ast.Sign.Minus
  {
    SizeScanLastWins(p.children, 0, Ast.SizeSpec(Ast.Sign.None, 0, None));
  }

  /** A child of a time specification that the loop accepts. */
  predicate TimeChildOk(c: Pair)
  {
    c.rule == Number ==> ParseU64(c.text).Some?
  }

  lemma {:induction false} TimeScanOkIff(ch: seq<Pair>, i: nat, acc: Ast.TimeSpec)
    requires TimeChildrenWf(ch) && i <= |ch|
    ensures TimeScan(ch, i, acc).Ok? <==> forall k :: i <= k < |ch| ==> TimeChildOk(ch[k])
    decreases |ch| - i
  {
    if i < |ch| {
      var step := TimeStep(ch[i], acc);
      if step.Ok? {
        TimeScanOkIff(ch, i + 1, step.value);
      }
    }
  }

  lemma {:induction false} TimeScanFirstError(ch: seq<Pair>, i: nat, acc: Ast.TimeSpec, k: nat)
    requires TimeChildrenWf(ch) && i <= k < |ch|
    requires forall j :: i <= j < k ==> TimeChildOk(ch[j])
    requires ch[k].rule == Number && ParseU64(ch[k].text).None?
    ensures TimeScan(ch, i, acc) == Err(InvalidNumber(ch[k].text))
    decreases k - i
  {
    if i < k {
      assert TimeChildOk(ch[i]);
      var next := TimeStep(ch[i], acc).value;
      TimeScanFirstError(ch, i + 1, next, k);
    }
  }

  lemma {:induction false} TimeScanLastWins(ch: seq<Pair>, i: nat, acc: Ast.TimeSpec)
    requires TimeChildrenWf(ch) && i <= |ch|
    requires TimeScan(ch, i, acc).Ok?
    ensures var t := TimeScan(ch, i, acc).value;
      && (LastIndex(ch, i, Sign).None? ==> t.sign == acc.sign)
      && (LastIndex(ch, i, Sign).Some? ==> t.sign == SignOf(ch[LastIndex(ch, i, Sign).value]))
      && (LastIndex(ch, i, Number).None? ==> t.value == acc.value)
      && (LastIndex(ch, i, Number).Some? ==> ParseU64(ch[LastIndex(ch, i, Number).value].text) == Some(t.value))
    decreases |ch| - i
  {
    if i < |ch| {
      var c := ch[i];
      if c.rule == Sign {
        TimeScanLastWins(ch, i + 1, acc.(sign := SignOf(c)));
      } else if c.rule == Number {
        TimeScanLastWins(ch, i + 1, acc.(value := ParseU64(c.text).value));
      } else {
        TimeScanLastWins(ch, i + 1, acc);
      }
    }
  }

  /** `parse_timespec` defaults to sign none and value 0. */
  lemma TimeSpecDefaults(p: Pair)
    requires TimeChildrenWf(p.children) && TimeSpecOf(p).Ok?
    ensures LastIndex(p.children, 0, Sign).None? ==> TimeSpecOf(p).value.sign == Ast.Sign.None
    ensures LastIndex(p.children, 0, Number).None? ==> TimeSpecOf(p).value.value == 0
  {
    TimeScanLastWins(p.children, 0, Ast.TimeSpec(Ast.Sign.None, 0));
  }

  // ---------------------------------------------------------------------
  // Permission specifications.

  lemma {:induction false} PermScanLastWins(ch: seq<Pair>, i: nat, prefix: Option<Ast.PermPrefix>, term: Option<Ast.PermTerm>)
    requires PermChildrenWf(ch) && i <= |ch|
    requires PermScan(ch, i, prefix, term).Ok?
    ensures var found := PermScan(ch, i, prefix, term).value;
      && (LastIndex(ch, i, PermPrefix).None? ==> found.0 == prefix)
      && (LastIndex(ch, i, PermPrefix).Some? ==>
            found.0.Some? && ParsePermPrefix(ch[LastIndex(ch, i, PermPrefix).value]) == Ok(found.0.value))
      && (LastIndex(ch, i, PermTerm).None? ==> found.1 == term)
      && (LastIndex(ch, i, PermTerm).Some? ==>
            found.1.Some? && ParsePermTerm(ch[LastIndex(ch, i, PermTerm).value]) == Ok(found.1.value))
    decreases |ch| - i
  {
    if i < |ch| {
      var c := ch[i];
      if c.rule == PermPrefix {
        PermScanLastWins(ch, i + 1, Some(ParsePermPrefix(c).value), term);
      } else if c.rule == PermTerm {
        PermScanLastWins(ch, i + 1, prefix, Some(ParsePermTerm(c).value));
      } else {
        PermScanLastWins(ch, i + 1, prefix, term);
      }
    }
  }

  /** Without a `PermTerm` child the rule fails with "expected PermTerm";
      without a `PermPrefix` child the prefix is absent (an exact match). */
  lemma PermRuleTermRequired(ch: seq<Pair>)
    requires PermChildrenWf(ch) && PermScan(ch, 0, None, None).Ok?
    ensures LastIndex(ch, 0, PermTerm).None? ==> PermSpecOf(ch) == Err(UnexpectedRule("PermTerm", "None"))
    ensures LastIndex(ch, 0, PermTerm).Some? ==> PermSpecOf(ch).Ok?
    ensures LastIndex(ch, 0, PermPrefix).None? && PermSpecOf(ch).Ok? ==> PermSpecOf(ch).value.prefix == None
  {
    PermScanLastWins(ch, 0, None, None);
    var found := PermScan(ch, 0, None, None).value;
    assert PermSpecOf(ch) == if found.1.None? then Err(UnexpectedRule("PermTerm", "None"))
                             else Ok(Ast.PermSpec(found.0, found.1.value));
  }

  /** The children from `i` on that have the given rule, in order. */
  function Filter(ch: seq<Pair>, i: nat, rule: Rule): seq<Pair>
    requires i <= |ch|
    decreases |ch| - i
  {
    if i == |ch| then []
    else (if ch[i].rule == rule then [ch[i]] else []) + Filter(ch, i + 1, rule)
  }

  /** A sequence that starts with `acc + [s]` starts with `acc`, then `s`. */
  lemma PrefixStep<T>(acc: seq<T>, s: T, r: seq<T>)
    requires |acc| < |r| && r[..|acc| + 1] == acc + [s]
    ensures r[..|acc|] == acc && r[|acc|] == s
  {
    assert r[..|acc|] == r[..|acc| + 1][..|acc|];
  }

  /** `r` holds, one for one and in order, the statements the nodes `f`
      compile to. */
  predicate CompiledStatements(f: seq<Pair>, r: seq<Ast.SymPermStatement>)
    decreases |f|
  {
    if f == [] then r == []
    else
      && r != []
      && StmtWf(f[0]) && StatementOf(f[0]) == Ok(r[0])
      && CompiledStatements(f[1..], r[1..])
  }

  /** Dropping `n` elements, then one more, drops `n + 1`. */
  lemma DropStep<T>(r: seq<T>, n: nat)
    requires n < |r|
    ensures r[n..][0] == r[n] && r[n..][1..] == r[n + 1..]
  {
  }

  /** Symbolic statements keep their order: the result is `acc` followed by
      the statements of the `SymPermTermStmt` children, one for each. */
  lemma {:induction false} StatementsInOrder(ch: seq<Pair>, i: nat, acc: seq<Ast.SymPermStatement>)
    requires StmtChildrenWf(ch) && i <= |ch|
    requires StmtScan(ch, i, acc).Ok?
    ensures var r := StmtScan(ch, i, acc).value;
      && |acc| <= |r| && r[..|acc|] == acc
      && CompiledStatements(Filter(ch, i, SymPermTermStmt), r[|acc|..])
    decreases |ch| - i
  {
    if i < |ch| {
      var rest := Filter(ch, i + 1, SymPermTermStmt);
      if ch[i].rule == SymPermTermStmt {
        var s := StatementOf(ch[i]).value;
        assert StmtScan(ch, i, acc) == StmtScan(ch, i + 1, acc + [s]);
        StatementsInOrder(ch, i + 1, acc + [s]);
        var r := StmtScan(ch, i + 1, acc + [s]).value;
        var f := Filter(ch, i, SymPermTermStmt);
        assert f == [ch[i]] + rest;
        PrefixStep(acc, s, r);
        DropStep(r, |acc|);
      } else {
        assert StmtScan(ch, i, acc) == StmtScan(ch, i + 1, acc);
        StatementsInOrder(ch, i + 1, acc);
        assert Filter(ch, i, SymPermTermStmt) == rest;
      }
    }
  }

  /** Privileges keep their order in the same way. */
  lemma {:induction false} PrivilegesInOrder(ch: seq<Pair>, i: nat, acc: seq<Ast.SymPermPriv>)
    requires PrivChildrenWf(ch) && i <= |ch|
    requires PrivScan(ch, i, acc).Ok?
    ensures var r := PrivScan(ch, i, acc).value;
            var f := Filter(ch, i, SymPermPriv);
      && |r| == |acc| + |f|
      && r[..|acc|] == acc
      && forall k :: 0 <= k < |f| ==> HasInner(f[k]) && ParseSymPermPriv(f[k]) == Ok(r[|acc| + k])
    decreases |ch| - i
  {
    if i < |ch| {
      if ch[i].rule == SymPermPriv {
        var x := ParseSymPermPriv(ch[i]).value;
        PrivilegesInOrder(ch, i + 1, acc + [x]);
      } else {
        PrivilegesInOrder(ch, i + 1, acc);
      }
    }
  }
}
