/** The compiler from a pest parse tree to an `Ast.Expr` (src/parser.rs).
    A parse-tree node is a `Pair`: the grammar rule it matched, the text it
    spans and its child nodes. The grammar itself is not part of this model:
    the tree is an input, and the `unwrap()`s of the source become the
    well-formedness predicates below. */
module Parser {
  import opened Wrappers
  import opened Numbers
  import Ast

  /** The grammar rules parser.rs matches on. `Other` stands for any rule it
      never names (such as the `-not` token), carrying that rule's name. */
  datatype Rule =
    | Program | Expr | UnaryExpr | BinaryExpr | AndExpr | OrExpr | AndOperator | OrOperator
    | Term | Test
    | Path | Ipath | Name | Iname | Regex | Iregex | True | False | Type | Size | Empty
    | Amin | Atime | Ctime | Cmin | Mmin | Mtime | Anewer | Cnewer | Mnewer | Newer
    | User | Group | Uid | Gid | Perm
    | BlockFile | CharFile | Directory | NamedPipe | RegularFile | SymbolicLink | Socket
    | Sign | Plus | Minus | Number
    | SizeSuffix | Blocks | Bytes | Words | Kb | Mb | Gb
    | PermPrefix | PermAllMode | PermAnyMode | PermTerm | NumPermTerm | SymPermTerm | SymPermTermStmt
    | SymPrincipalUser | SymPrincipalGroup | SymPrincipalOther | SymPrincipalAll
    | SymPermOperAdd | SymPermOperRemove | SymPermOperSet
    | SymPermPriv | SymPermRead | SymPermWrite | SymPermExecute
    | Other(name: string)

  /** A node of the parse tree: `as_rule()`, `as_str()` and `into_inner()`. */
  datatype Pair = Pair(rule: Rule, text: string, children: seq<Pair>)

  datatype ParseError =
    | UnexpectedRule(expected: string, found: string)
    | InvalidNumber(text: string)

  type Outcome<T> = Result<T, ParseError>

  /** The `{:?}` rendering of a rule: its variant name. */
  function RuleName(r: Rule): string
  {
    match r
    case Program => "Program"
    case Expr => "Expr"
    case UnaryExpr => "UnaryExpr"
    case BinaryExpr => "BinaryExpr"
    case AndExpr => "AndExpr"
    case OrExpr => "OrExpr"
    case AndOperator => "AndOperator"
    case OrOperator => "OrOperator"
    case Term => "Term"
    case Test => "Test"
    case Path => "Path"
    case Ipath => "Ipath"
    case Name => "Name"
    case Iname => "Iname"
    case Regex => "Regex"
    case Iregex => "Iregex"
    case True => "True"
    case False => "False"
    case Type => "Type"
    case Size => "Size"
    case Empty => "Empty"
    case Amin => "Amin"
    case Atime => "Atime"
    case Ctime => "Ctime"
    case Cmin => "Cmin"
    case Mmin => "Mmin"
    case Mtime => "Mtime"
    case Anewer => "Anewer"
    case Cnewer => "Cnewer"
    case Mnewer => "Mnewer"
    case Newer => "Newer"
    case User => "User"
    case Group => "Group"
    case Uid => "Uid"
    case Gid => "Gid"
    case Perm => "Perm"
    case BlockFile => "BlockFile"
    case CharFile => "CharFile"
    case Directory => "Directory"
    case NamedPipe => "NamedPipe"
    case RegularFile => "RegularFile"
    case SymbolicLink => "SymbolicLink"
    case Socket => "Socket"
    case Sign => "Sign"
    case Plus => "Plus"
    case Minus => "Minus"
    case Number => "Number"
    case SizeSuffix => "SizeSuffix"
    case Blocks => "Blocks"
    case Bytes => "Bytes"
    case Words => "Words"
    case Kb => "Kb"
    case Mb => "Mb"
    case Gb => "Gb"
    case PermPrefix => "PermPrefix"
    case PermAllMode => "PermAllMode"
    case PermAnyMode => "PermAnyMode"
    case PermTerm => "PermTerm"
    case NumPermTerm => "NumPermTerm"
    case SymPermTerm => "SymPermTerm"
    case SymPermTermStmt => "SymPermTermStmt"
    case SymPrincipalUser => "SymPrincipalUser"
    case SymPrincipalGroup => "SymPrincipalGroup"
    case SymPrincipalOther => "SymPrincipalOther"
    case SymPrincipalAll => "SymPrincipalAll"
    case SymPermOperAdd => "SymPermOperAdd"
    case SymPermOperRemove => "SymPermOperRemove"
    case SymPermOperSet => "SymPermOperSet"
    case SymPermPriv => "SymPermPriv"
    case SymPermRead => "SymPermRead"
    case SymPermWrite => "SymPermWrite"
    case SymPermExecute => "SymPermExecute"
    case Other(name) => name
  }

  // ---------------------------------------------------------------------
  // Well-formedness: the shapes the `unwrap()`s of parser.rs rely on. Each
  // predicate asks for a first (or second) child wherever the compiler takes
  // one without checking, at every position the compiler may descend into.

  predicate HasInner(p: Pair)
  {
    |p.children| >= 1
  }

  predicate SizeChildrenWf(ch: seq<Pair>)
  {
    forall k :: 0 <= k < |ch| && (ch[k].rule == Sign || ch[k].rule == SizeSuffix) ==> HasInner(ch[k])
  }

  predicate TimeChildrenWf(ch: seq<Pair>)
  {
    forall k :: 0 <= k < |ch| && ch[k].rule == Sign ==> HasInner(ch[k])
  }

  predicate PrivChildrenWf(ch: seq<Pair>)
  {
    forall k :: 0 <= k < |ch| && ch[k].rule == SymPermPriv ==> HasInner(ch[k])
  }

  /** A symbolic statement: principal, operator, then privileges. */
  predicate StmtWf(s: Pair)
  {
    && (|s.children| >= 1 ==> HasInner(s.children[0]))
    && (|s.children| >= 2 ==> HasInner(s.children[1]))
    && PrivChildrenWf(s.children)
  }

  predicate StmtChildrenWf(ch: seq<Pair>)
  {
    forall k :: 0 <= k < |ch| && ch[k].rule == SymPermTermStmt ==> StmtWf(ch[k])
  }

  predicate PermTermWf(c: Pair)
  {
    HasInner(c) && (c.children[0].rule == SymPermTerm ==> StmtChildrenWf(c.children[0].children))
  }

  predicate PermChildrenWf(ch: seq<Pair>)
  {
    forall k :: 0 <= k < |ch| ==>
      && (ch[k].rule == PermPrefix ==> HasInner(ch[k]))
      && (ch[k].rule == PermTerm ==> PermTermWf(ch[k]))
  }

  /** The keyword node below a `Test` node. */
  predicate TestArgWf(t: Pair)
  {
    var r := t.rule;
    if r in {Path, Ipath, Name, Iname, Regex, Iregex, Anewer, Cnewer, Mnewer, Newer, User, Group, Uid, Gid} then
      HasInner(t)
    else if r == Type then HasInner(t) && HasInner(t.children[0])
    else if r == Size then HasInner(t) && SizeChildrenWf(t.children[0].children)
    else if r in {Amin, Atime, Ctime, Cmin, Mmin, Mtime} then HasInner(t) && TimeChildrenWf(t.children[0].children)
    else if r == Perm then PermChildrenWf(t.children)
    else true
  }

  predicate TestWf(p: Pair)
  {
    HasInner(p) && TestArgWf(p.children[0])
  }

  predicate ExprWf(p: Pair)
    decreases p, 1
  {
    if p.rule == Expr then HasInner(p) && ExprWf(p.children[0])
    else if p.rule == UnaryExpr then |p.children| >= 2 && TermWf(p.children[1])
    else if p.rule == BinaryExpr then
      HasInner(p) && (p.children[0].rule == AndExpr || p.children[0].rule == OrExpr ==> ChainWf(p.children[0]))
    else if p.rule == Term then TermWf(p)
    else true
  }

  predicate TermWf(p: Pair)
    decreases p, 0
  {
    p.rule == Term ==>
      && HasInner(p)
      && (p.children[0].rule == Test ==> TestWf(p.children[0]))
      && (p.children[0].rule == Expr ==> ExprWf(p.children[0]))
  }

  /** An `AndExpr` or `OrExpr`: a first term, then operators and operands. */
  predicate ChainWf(p: Pair)
    decreases p, 2
  {
    && HasInner(p)
    && TermWf(p.children[0])
    && forall k :: 1 <= k < |p.children| ==> ExprWf(p.children[k])
  }

  predicate ProgramWf(pairs: seq<Pair>)
  {
    forall k :: 0 <= k < |pairs| ==>
      && (pairs[k].rule == Program && HasInner(pairs[k]) ==> ExprWf(pairs[k].children[0]))
      && (pairs[k].rule == Expr ==> ExprWf(pairs[k]))
  }

  // ---------------------------------------------------------------------
  // The descent: parse_to_ast, parse_expr, parse_unary_expr,
  // parse_binary_expr and parse_term, with the two left folds.

  /** `parse_to_ast`: the first `Program` node with a child, or the first
      `Expr` node, is compiled; without one the result is an error. */
  function ParseToAst(pairs: seq<Pair>): Outcome<Ast.Expr>
    requires ProgramWf(pairs)
  {
    if pairs == [] then Err(UnexpectedRule("Program", "None"))
    else if pairs[0].rule == Program && HasInner(pairs[0]) then ParseExpr(pairs[0].children[0])
    else if pairs[0].rule == Expr then ParseExpr(pairs[0])
    else ParseToAst(pairs[1..])
  }

  function ParseExpr(p: Pair): Outcome<Ast.Expr>
    requires ExprWf(p)
    decreases p, 2, 0
  {
    if p.rule == Expr then ParseExpr(p.children[0])
    else if p.rule == UnaryExpr then ParseUnaryExpr(p)
    else if p.rule == BinaryExpr then ParseBinaryExpr(p)
    else if p.rule == Term then ParseTerm(p)
    else Err(UnexpectedRule("Expr", RuleName(p.rule)))
  }

  /** Skips the `-not` token and negates the single term that follows it. */
  function ParseUnaryExpr(p: Pair): Outcome<Ast.Expr>
    requires |p.children| >= 2 && TermWf(p.children[1])
    decreases p, 1, 0
  {
    var e :- ParseTerm(p.children[1]);
    Ok(Ast.Not(e))
  }

  function ParseBinaryExpr(p: Pair): Outcome<Ast.Expr>
    requires HasInner(p)
    requires p.children[0].rule == AndExpr || p.children[0].rule == OrExpr ==> ChainWf(p.children[0])
    decreases p, 1, 0
  {
    var inner := p.children[0];
    if inner.rule == AndExpr then AndChain(inner)
    else if inner.rule == OrExpr then OrChain(inner)
    else Err(UnexpectedRule("AndExpr or OrExpr", RuleName(inner.rule)))
  }

  /** What `parse_and_expr` computes: the first child as a term, then the
      loop over the remaining children. */
  function AndChain(p: Pair): Outcome<Ast.Expr>
    requires ChainWf(p)
    decreases p, 1, 0
  {
    var left :- ParseTerm(p.children[0]);
    AndChainFrom(p, 1, left)
  }

  /** The `while let` loop of `parse_and_expr` from child `i` on, with
      `left` built so far. An `AndOperator` consumes the child after it, if
      any, as the right operand; an `Expr` child is an implicit AND; other
      children are skipped. */
  function AndChainFrom(p: Pair, i: nat, left: Ast.Expr): Outcome<Ast.Expr>
    requires ChainWf(p) && 1 <= i <= |p.children|
    decreases p, 0, |p.children| - i
  {
    if i == |p.children| then Ok(left)
    else
      var next := p.children[i];
      if next.rule == AndOperator then
        if i + 1 < |p.children| then
          var right :- ParseExpr(p.children[i + 1]);
          AndChainFrom(p, i + 2, Ast.And(left, right))
        else Ok(left)
      else if next.rule == Expr then
        var right :- ParseExpr(next);
        AndChainFrom(p, i + 1, Ast.And(left, right))
      else AndChainFrom(p, i + 1, left)
  }

  function OrChain(p: Pair): Outcome<Ast.Expr>
    requires ChainWf(p)
    decreases p, 1, 0
  {
    var left :- ParseTerm(p.children[0]);
    OrChainFrom(p, 1, left)
  }

  /** The `while let` loop of `parse_or_expr`: only an `OrOperator` and the
      child after it contribute; every other child is skipped. */
  function OrChainFrom(p: Pair, i: nat, left: Ast.Expr): Outcome<Ast.Expr>
    requires ChainWf(p) && 1 <= i <= |p.children|
    decreases p, 0, |p.children| - i
  {
    if i == |p.children| then Ok(left)
    else if p.children[i].rule == OrOperator then
      if i + 1 < |p.children| then
        var right :- ParseExpr(p.children[i + 1]);
        OrChainFrom(p, i + 2, Ast.Or(left, right))
      else Ok(left)
    else OrChainFrom(p, i + 1, left)
  }

  function ParseTerm(p: Pair): Outcome<Ast.Expr>
    requires TermWf(p)
    decreases p, 1, 0
  {
    if p.rule == Term then
      var inner := p.children[0];
      if inner.rule == Test then
        var t :- ParseTest(inner);
        Ok(Ast.Expr.Test(t))
      else if inner.rule == Expr then ParseExpr(inner)
      else Err(UnexpectedRule("Test or Expr", RuleName(inner.rule)))
    else Err(UnexpectedRule("Term", RuleName(p.rule)))
  }

  // ---------------------------------------------------------------------
  // Tests and their arguments.

  /** `-uid` and `-gid` arguments: a decimal `u32`, or `InvalidNumber` with
      the offending text. */
  function ParseId(text: string): (r: Outcome<u32>)
    ensures r.Ok? <==> Unsigned(text) != [] && AllDigits(Unsigned(text), 10)
                       && DigitsValue(Unsigned(text), 10) < U32_LIMIT
    ensures r.Ok? ==> r.value == DigitsValue(Unsigned(text), 10)
    ensures r.Err? ==> r.error == InvalidNumber(text)
  {
    match ParseU32(text)
    case None => Err(InvalidNumber(text))
    case Some(n) => Ok(n)
  }

  function ParseTest(p: Pair): Outcome<Ast.Test>
    requires TestWf(p)
  {
    var inner := p.children[0];
    if inner.rule == Path then Ok(Ast.Test.Path(inner.children[0].text))
    else if inner.rule == Ipath then Ok(Ast.Test.Ipath(inner.children[0].text))
    else if inner.rule == Name then Ok(Ast.Test.Name(inner.children[0].text))
    else if inner.rule == Iname then Ok(Ast.Test.Iname(inner.children[0].text))
    else if inner.rule == Regex then Ok(Ast.Test.Regex(inner.children[0].text))
    else if inner.rule == Iregex then Ok(Ast.Test.Iregex(inner.children[0].text))
    else if inner.rule == True then Ok(Ast.Test.True)
    else if inner.rule == False then Ok(Ast.Test.False)
    else if inner.rule == Type then
      var ft :- ParseFileType(inner.children[0]);
      Ok(Ast.Test.Type(ft))
    else if inner.rule == Size then
      var spec :- SizeSpecOf(inner.children[0]);
      Ok(Ast.Test.Size(spec))
    else if inner.rule == Empty then Ok(Ast.Test.Empty)
    else if inner.rule == Amin then
      var spec :- TimeSpecOf(inner.children[0]);
      Ok(Ast.Test.Amin(spec))
    else if inner.rule == Atime then
      var spec :- TimeSpecOf(inner.children[0]);
      Ok(Ast.Test.Atime(spec))
    else if inner.rule == Ctime then
      var spec :- TimeSpecOf(inner.children[0]);
      Ok(Ast.Test.Ctime(spec))
    else if inner.rule == Cmin then
      var spec :- TimeSpecOf(inner.children[0]);
      Ok(Ast.Test.Cmin(spec))
    else if inner.rule == Mmin then
      var spec :- TimeSpecOf(inner.children[0]);
      Ok(Ast.Test.Mmin(spec))
    else if inner.rule == Mtime then
      var spec :- TimeSpecOf(inner.children[0]);
      Ok(Ast.Test.Mtime(spec))
    else if inner.rule == Anewer then Ok(Ast.Test.Anewer(inner.children[0].text))
    else if inner.rule == Cnewer then Ok(Ast.Test.Cnewer(inner.children[0].text))
    else if inner.rule == Mnewer then Ok(Ast.Test.Mnewer(inner.children[0].text))
    else if inner.rule == Newer then Ok(Ast.Test.Newer(inner.children[0].text))
    else if inner.rule == User then Ok(Ast.Test.User(inner.children[0].text))
    else if inner.rule == Group then Ok(Ast.Test.Group(inner.children[0].text))
    else if inner.rule == Uid then
      var uid :- ParseId(inner.children[0].text);
      Ok(Ast.Test.Uid(uid))
    else if inner.rule == Gid then
      var gid :- ParseId(inner.children[0].text);
      Ok(Ast.Test.Gid(gid))
    else if inner.rule == Perm then
      var spec :- PermSpecOf(inner.children);
      Ok(Ast.Test.Perm(spec))
    else Err(UnexpectedRule("Test variant", RuleName(inner.rule)))
  }

  function ParseFileType(p: Pair): Outcome<Ast.FileType>
    requires HasInner(p)
  {
    var inner := p.children[0];
    if inner.rule == BlockFile then Ok(Ast.BlockFile)
    else if inner.rule == CharFile then Ok(Ast.CharFile)
    else if inner.rule == Directory then Ok(Ast.Directory)
    else if inner.rule == NamedPipe then Ok(Ast.NamedPipe)
    else if inner.rule == RegularFile then Ok(Ast.RegularFile)
    else if inner.rule == SymbolicLink then Ok(Ast.SymbolicLink)
    else if inner.rule == Socket then Ok(Ast.Socket)
    else Err(UnexpectedRule("FileType", RuleName(inner.rule)))
  }

  /** The sign below a `Sign` node; anything but `+` or `-` reads as none. */
  function SignOf(p: Pair): Ast.Sign
    requires HasInner(p)
  {
    var inner := p.children[0];
    if inner.rule == Plus then Ast.Sign.Plus
    else if inner.rule == Minus then Ast.Sign.Minus
    else Ast.Sign.None
  }

  function ParseSizeSuffix(p: Pair): Outcome<Ast.SizeSuffix>
    requires HasInner(p)
  {
    var inner := p.children[0];
    if inner.rule == Blocks then Ok(Ast.Blocks)
    else if inner.rule == Bytes then Ok(Ast.Bytes)
    else if inner.rule == Words then Ok(Ast.Words)
    else if inner.rule == Kb then Ok(Ast.Kb)
    else if inner.rule == Mb then Ok(Ast.Mb)
    else if inner.rule == Gb then Ok(Ast.Gb)
    else Err(UnexpectedRule("SizeSuffix", RuleName(inner.rule)))
  }

  /** One pass of the `for` loop of `parse_sizespec`: a `Sign`, `Number`
      or `SizeSuffix` child overwrites its field; a bad number or suffix
      is an error; any other child changes nothing. */
  function SizeStep(c: Pair, acc: Ast.SizeSpec): Outcome<Ast.SizeSpec>
    requires c.rule == Sign || c.rule == SizeSuffix ==> HasInner(c)
  {
    if c.rule == Sign then Ok(acc.(sign := SignOf(c)))
    else if c.rule == Number then
      (match ParseU64(c.text)
       case None => Err(InvalidNumber(c.text))
       case Some(v) => Ok(acc.(value := v)))
    else if c.rule == SizeSuffix then
      var u :- ParseSizeSuffix(c);
      Ok(acc.(suffix := Some(u)))
    else Ok(acc)
  }

  /** The loop from child `i` on, with the spec built so far; the first
      error ends it. */
  function SizeScan(ch: seq<Pair>, i: nat, acc: Ast.SizeSpec): Outcome<Ast.SizeSpec>
    requires SizeChildrenWf(ch) && i <= |ch|
    decreases |ch| - i
  {
    if i == |ch| then Ok(acc)
    else
      var next :- SizeStep(ch[i], acc);
      SizeScan(ch, i + 1, next)
  }

  /** What `parse_sizespec` computes, starting from sign none, value 0 and
      no suffix. */
  function SizeSpecOf(p: Pair): Outcome<Ast.SizeSpec>
    requires SizeChildrenWf(p.children)
  {
    SizeScan(p.children, 0, Ast.SizeSpec(Ast.Sign.None, 0, None))
  }

  /** One pass of the `for` loop of `parse_timespec`: as for sizes,
      without a suffix. */
  function TimeStep(c: Pair, acc: Ast.TimeSpec): Outcome<Ast.TimeSpec>
    requires c.rule == Sign ==> HasInner(c)
  {
    if c.rule == Sign then Ok(acc.(sign := SignOf(c)))
    else if c.rule == Number then
      (match ParseU64(c.text)
       case None => Err(InvalidNumber(c.text))
       case Some(v) => Ok(acc.(value := v)))
    else Ok(acc)
  }

  function TimeScan(ch: seq<Pair>, i: nat, acc: Ast.TimeSpec): Outcome<Ast.TimeSpec>
    requires TimeChildrenWf(ch) && i <= |ch|
    decreases |ch| - i
  {
    if i == |ch| then Ok(acc)
    else
      var next :- TimeStep(ch[i], acc);
      TimeScan(ch, i + 1, next)
  }

  /** What `parse_timespec` computes, starting from sign none and value 0. */
  function TimeSpecOf(p: Pair): Outcome<Ast.TimeSpec>
    requires TimeChildrenWf(p.children)
  {
    TimeScan(p.children, 0, Ast.TimeSpec(Ast.Sign.None, 0))
  }

  // ---------------------------------------------------------------------
  // Permissions.

  function ParsePermPrefix(p: Pair): Outcome<Ast.PermPrefix>
    requires HasInner(p)
  {
    var inner := p.children[0];
    if inner.rule == PermAllMode then Ok(Ast.AllMode)
    else if inner.rule == PermAnyMode then Ok(Ast.AnyMode)
    else Err(UnexpectedRule("PermAllMode or PermAnyMode", RuleName(inner.rule)))
  }

  /** A numeric term is an octal `u32`; a symbolic one a list of statements. */
  function ParsePermTerm(p: Pair): Outcome<Ast.PermTerm>
    requires PermTermWf(p)
  {
    var inner := p.children[0];
    if inner.rule == NumPermTerm then
      (match ParseOctalU32(inner.text)
       case None => Err(InvalidNumber(inner.text))
       case Some(mode) => Ok(Ast.Numeric(mode)))
    else if inner.rule == SymPermTerm then
      var statements :- StmtScan(inner.children, 0, []);
      Ok(Ast.Symbolic(statements))
    else Err(UnexpectedRule("NumPermTerm or SymPermTerm", RuleName(inner.rule)))
  }

  /** One pass of the loop of `parse_perm_rule`: a `PermPrefix` or
      `PermTerm` child overwrites what was found before. */
  function PermStep(c: Pair, prefix: Option<Ast.PermPrefix>, term: Option<Ast.PermTerm>)
    : Outcome<(Option<Ast.PermPrefix>, Option<Ast.PermTerm>)>
    requires c.rule == PermPrefix ==> HasInner(c)
    requires c.rule == PermTerm ==> PermTermWf(c)
  {
    if c.rule == PermPrefix then
      var x :- ParsePermPrefix(c);
      Ok((Some(x), term))
    else if c.rule == PermTerm then
      var t :- ParsePermTerm(c);
      Ok((prefix, Some(t)))
    else Ok((prefix, term))
  }

  /** The loop from child `i` on; the first error ends it. */
  function PermScan(ch: seq<Pair>, i: nat, prefix: Option<Ast.PermPrefix>, term: Option<Ast.PermTerm>)
    : Outcome<(Option<Ast.PermPrefix>, Option<Ast.PermTerm>)>
    requires PermChildrenWf(ch) && i <= |ch|
    decreases |ch| - i
  {
    if i == |ch| then Ok((prefix, term))
    else
      var found :- PermStep(ch[i], prefix, term);
      PermScan(ch, i + 1, found.0, found.1)
  }

  /** What `parse_perm_rule` computes: a term is required, a prefix is not. */
  function PermSpecOf(ch: seq<Pair>): Outcome<Ast.PermSpec>
    requires PermChildrenWf(ch)
  {
    var found :- PermScan(ch, 0, None, None);
    match found.1
    case None => Err(UnexpectedRule("PermTerm", "None"))
    case Some(term) => Ok(Ast.PermSpec(found.0, term))
  }

  /** The loop of `parse_sym_perm_term`: every `SymPermTermStmt` child is
      parsed and appended, in order. */
  function StmtScan(ch: seq<Pair>, i: nat, acc: seq<Ast.SymPermStatement>): Outcome<seq<Ast.SymPermStatement>>
    requires StmtChildrenWf(ch) && i <= |ch|
    decreases |ch| - i
  {
    if i == |ch| then Ok(acc)
    else if ch[i].rule == SymPermTermStmt then
      var s :- StatementOf(ch[i]);
      StmtScan(ch, i + 1, acc + [s])
    else StmtScan(ch, i + 1, acc)
  }

  function ParseSymPrincipal(p: Pair): Outcome<Ast.SymPrincipal>
    requires HasInner(p)
  {
    var inner := p.children[0];
    if inner.rule == SymPrincipalUser then Ok(Ast.SymPrincipal.User)
    else if inner.rule == SymPrincipalGroup then Ok(Ast.SymPrincipal.Group)
    else if inner.rule == SymPrincipalOther then Ok(Ast.Other)
    else if inner.rule == SymPrincipalAll then Ok(Ast.All)
    else Err(UnexpectedRule("SymPrincipal variant", RuleName(inner.rule)))
  }

  function ParseSymPermOperator(p: Pair): Outcome<Ast.SymPermOperator>
    requires HasInner(p)
  {
    var inner := p.children[0];
    if inner.rule == SymPermOperAdd then Ok(Ast.Add)
    else if inner.rule == SymPermOperRemove then Ok(Ast.Remove)
    else if inner.rule == SymPermOperSet then Ok(Ast.Set)
    else Err(UnexpectedRule("SymPermOperator variant", RuleName(inner.rule)))
  }

  function ParseSymPermPriv(p: Pair): Outcome<Ast.SymPermPriv>
    requires HasInner(p)
  {
    var inner := p.children[0];
    if inner.rule == SymPermRead then Ok(Ast.Read)
    else if inner.rule == SymPermWrite then Ok(Ast.Write)
    else if inner.rule == SymPermExecute then Ok(Ast.Execute)
    else Err(UnexpectedRule("SymPermPriv variant", RuleName(inner.rule)))
  }

  /** The privilege loop of `parse_sym_perm_term_stmt`: every `SymPermPriv`
      child is parsed and appended, in order. */
  function PrivScan(ch: seq<Pair>, i: nat, acc: seq<Ast.SymPermPriv>): Outcome<seq<Ast.SymPermPriv>>
    requires PrivChildrenWf(ch) && i <= |ch|
    decreases |ch| - i
  {
    if i == |ch| then Ok(acc)
    else if ch[i].rule == SymPermPriv then
      var x :- ParseSymPermPriv(ch[i]);
      PrivScan(ch, i + 1, acc + [x])
    else PrivScan(ch, i + 1, acc)
  }

  /** What `parse_sym_perm_term_stmt` computes: a principal, an operator,
      then the privileges among the remaining children. */
  function StatementOf(s: Pair): Outcome<Ast.SymPermStatement>
    requires StmtWf(s)
  {
    if |s.children| == 0 then Err(UnexpectedRule("SymPrincipal", "None"))
    else
      var principal :- ParseSymPrincipal(s.children[0]);
      if |s.children| == 1 then Err(UnexpectedRule("SymPermOperator", "None"))
      else
        var operator :- ParseSymPermOperator(s.children[1]);
        var privileges :- PrivScan(s.children, 2, []);
        Ok(Ast.SymPermStatement(principal, operator, privileges))
  }

  // ---------------------------------------------------------------------
  // The loops of parser.rs, as written: each method updates its locals step
  // by step and is proved to compute the fold function above.

  /** `parse_and_expr` */
  method ParseAndExpr(p: Pair) returns (r: Outcome<Ast.Expr>)
    requires ChainWf(p)
    ensures r == AndChain(p)
  {
    var left :- ParseTerm(p.children[0]);
    var i := 1;
    while i < |p.children|
      invariant 1 <= i <= |p.children|
      invariant AndChainFrom(p, i, left) == AndChain(p)
      decreases |p.children| - i
    {
      var next := p.children[i];
      if next.rule == AndOperator {
        if i + 1 < |p.children| {
          var right :- ParseExpr(p.children[i + 1]);
          left := Ast.And(left, right);
          i := i + 2;
        } else {
          i := i + 1;
        }
      } else if next.rule == Expr {
        var right :- ParseExpr(next);
        left := Ast.And(left, right);
        i := i + 1;
      } else {
        i := i + 1;
      }
    }
    return Ok(left);
  }

  /** `parse_or_expr` */
  method ParseOrExpr(p: Pair) returns (r: Outcome<Ast.Expr>)
    requires ChainWf(p)
    ensures r == OrChain(p)
  {
    var left :- ParseTerm(p.children[0]);
    var i := 1;
    while i < |p.children|
      invariant 1 <= i <= |p.children|
      invariant OrChainFrom(p, i, left) == OrChain(p)
      decreases |p.children| - i
    {
      if p.children[i].rule == OrOperator && i + 1 < |p.children| {
        var right :- ParseExpr(p.children[i + 1]);
        left := Ast.Or(left, right);
        i := i + 2;
      } else {
        i := i + 1;
      }
    }
    return Ok(left);
  }

  /** `parse_sizespec` */
  method ParseSizeSpec(p: Pair) returns (r: Outcome<Ast.SizeSpec>)
    requires SizeChildrenWf(p.children)
    ensures r == SizeSpecOf(p)
  {
    var sign := Ast.Sign.None;
    var value: u64 := 0;
    var suffix: Option<Ast.SizeSuffix> := None;
    for i := 0 to |p.children|
      invariant SizeScan(p.children, i, Ast.SizeSpec(sign, value, suffix)) == SizeSpecOf(p)
    {
      var c := p.children[i];
      if c.rule == Sign {
        sign := SignOf(c);
      } else if c.rule == Number {
        var n := ParseU64(c.text);
        if n.None? {
          return Err(InvalidNumber(c.text));
        }
        value := n.value;
      } else if c.rule == SizeSuffix {
        var u :- ParseSizeSuffix(c);
        suffix := Some(u);
      }
    }
    return Ok(Ast.SizeSpec(sign, value, suffix));
  }

  /** `parse_timespec` */
  method ParseTimeSpec(p: Pair) returns (r: Outcome<Ast.TimeSpec>)
    requires TimeChildrenWf(p.children)
    ensures r == TimeSpecOf(p)
  {
    var sign := Ast.Sign.None;
    var value: u64 := 0;
    for i := 0 to |p.children|
      invariant TimeScan(p.children, i, Ast.TimeSpec(sign, value)) == TimeSpecOf(p)
    {
      var c := p.children[i];
      if c.rule == Sign {
        sign := SignOf(c);
      } else if c.rule == Number {
        var n := ParseU64(c.text);
        if n.None? {
          return Err(InvalidNumber(c.text));
        }
        value := n.value;
      }
    }
    return Ok(Ast.TimeSpec(sign, value));
  }

  /** `parse_perm_rule`, over the children of the `Perm` node. */
  method ParsePermRule(pairs: seq<Pair>) returns (r: Outcome<Ast.PermSpec>)
    requires PermChildrenWf(pairs)
    ensures r == PermSpecOf(pairs)
  {
    var prefix: Option<Ast.PermPrefix> := None;
    var term: Option<Ast.PermTerm> := None;
    var i := 0;
    while i < |pairs|
      invariant 0 <= i <= |pairs|
      invariant PermScan(pairs, i, prefix, term) == PermScan(pairs, 0, None, None)
    {
      var pair := pairs[i];
      if pair.rule == PermPrefix {
        var x :- ParsePermPrefix(pair);
        prefix := Some(x);
      } else if pair.rule == PermTerm {
        var t :- ParsePermTerm(pair);
        term := Some(t);
      }
      i := i + 1;
    }
    if term.None? {
      return Err(UnexpectedRule("PermTerm", "None"));
    }
    return Ok(Ast.PermSpec(prefix, term.value));
  }

  /** `parse_sym_perm_term` */
  method ParseSymPermTerm(p: Pair) returns (r: Outcome<seq<Ast.SymPermStatement>>)
    requires StmtChildrenWf(p.children)
    ensures r == StmtScan(p.children, 0, [])
  {
    var statements: seq<Ast.SymPermStatement> := [];
    for i := 0 to |p.children|
      invariant StmtScan(p.children, i, statements) == StmtScan(p.children, 0, [])
    {
      var inner := p.children[i];
      if inner.rule == SymPermTermStmt {
        var statement :- ParseSymPermTermStmt(inner);
        statements := statements + [statement];
      }
    }
    return Ok(statements);
  }

  /** `parse_sym_perm_term_stmt` */
  method ParseSymPermTermStmt(s: Pair) returns (r: Outcome<Ast.SymPermStatement>)
    requires StmtWf(s)
    ensures r == StatementOf(s)
  {
    if |s.children| == 0 {
      return Err(UnexpectedRule("SymPrincipal", "None"));
    }
    var principal :- ParseSymPrincipal(s.children[0]);
    if |s.children| == 1 {
      return Err(UnexpectedRule("SymPermOperator", "None"));
    }
    var operator :- ParseSymPermOperator(s.children[1]);
    var privileges: seq<Ast.SymPermPriv> := [];
    for i := 2 to |s.children|
      invariant PrivScan(s.children, i, privileges) == PrivScan(s.children, 2, [])
    {
      var privPair := s.children[i];
      if privPair.rule == SymPermPriv {
        var privilege :- ParseSymPermPriv(privPair);
        privileges := privileges + [privilege];
      }
    }
    return Ok(Ast.SymPermStatement(principal, operator, privileges));
  }
}
