/** Which node of the parse tree src/parser.rs compiles to what: the
    dispatch of the descent functions, the keyword of each test, and the
    rule each decoder reads for each variant. */
module ParserDispatch {
  import opened Wrappers
  import opened Parser
  import Ast

  // ---------------------------------------------------------------------
  // The descent.

  /** `parse_expr`: an `Expr` node compiles its first child, the three
      kinds of expression go to their own functions, and any other node is
      "expected Expr". */
  lemma ExprDispatch(p: Pair)
    requires ExprWf(p)
    ensures p.rule == Expr ==> ParseExpr(p) == ParseExpr(p.children[0])
    ensures p.rule == UnaryExpr ==> ParseExpr(p) == ParseUnaryExpr(p)
    ensures p.rule == BinaryExpr ==> ParseExpr(p) == ParseBinaryExpr(p)
    ensures p.rule == Term ==> ParseExpr(p) == ParseTerm(p)
    ensures p.rule !in {Expr, UnaryExpr, BinaryExpr, Term} ==>
              ParseExpr(p) == Err(UnexpectedRule("Expr", RuleName(p.rule)))
  {
  }

  /** `parse_binary_expr`: an `AndExpr` below is the and-fold, an `OrExpr`
      the or-fold, anything else an error. */
  lemma BinaryExprDispatch(p: Pair)
    requires ExprWf(p) && p.rule == BinaryExpr
    ensures p.children[0].rule == AndExpr ==> ParseExpr(p) == AndChain(p.children[0])
    ensures p.children[0].rule == OrExpr ==> ParseExpr(p) == OrChain(p.children[0])
    ensures p.children[0].rule !in {AndExpr, OrExpr} ==>
              ParseExpr(p) == Err(UnexpectedRule("AndExpr or OrExpr", RuleName(p.children[0].rule)))
  {
  }

  /** `parse_term`: a test becomes a leaf, a parenthesised expression is
      compiled as it stands (no node is added for the parentheses), and
      anything else is an error. */
  lemma TermDispatch(p: Pair)
    requires TermWf(p) && p.rule == Term
    ensures var inner := p.children[0];
            inner.rule == Test ==>
              var t := ParseTest(inner);
              && (t.Ok? ==> ParseTerm(p) == Ok(Ast.Expr.Test(t.value)))
              && (t.Err? ==> ParseTerm(p) == Err(t.error))
    ensures p.children[0].rule == Expr ==> ParseTerm(p) == ParseExpr(p.children[0])
    ensures p.children[0].rule !in {Test, Expr} ==>
              ParseTerm(p) == Err(UnexpectedRule("Test or Expr", RuleName(p.children[0].rule)))
  {
  }

  /** A node with no text of its own. */
  function Node(rule: Rule, children: seq<Pair>): Pair
  {
    Pair(rule, "", children)
  }

  /** Wrapping an expression in an `Expr` node changes nothing. */
  lemma ExprWrapper(e: Pair)
    requires ExprWf(e)
    ensures ExprWf(Node(Expr, [e])) && ParseExpr(Node(Expr, [e])) == ParseExpr(e)
  {
    assert Node(Expr, [e]).children[0] == e;
  }

  /** `A -or B`: an `OrExpr` of a term, the operator and an expression is
      the disjunction of the two. */
  lemma OrOfTwo(l: Pair, r: Pair, a: Ast.Expr, b: Ast.Expr)
    requires TermWf(l) && ParseTerm(l) == Ok(a)
    requires ExprWf(r) && ParseExpr(r) == Ok(b)
    ensures var chain := Node(OrExpr, [l, Node(OrOperator, []), r]);
            ChainWf(chain) && OrChain(chain) == Ok(Ast.Or(a, b))
  {
    var chain := Node(OrExpr, [l, Node(OrOperator, []), r]);
    assert chain.children[0] == l && chain.children[1].rule == OrOperator && chain.children[2] == r;
    assert ChainWf(chain);
    assert OrChain(chain) == OrChainFrom(chain, 1, a);
    assert OrChainFrom(chain, 1, a) == OrChainFrom(chain, 3, Ast.Or(a, b));
  }

  /** `A B`: an `AndExpr` of a term and an adjacent expression is their
      conjunction, with no operator written. */
  lemma AndOfAdjacent(l: Pair, r: Pair, a: Ast.Expr, b: Ast.Expr)
    requires TermWf(l) && ParseTerm(l) == Ok(a)
    requires r.rule == Expr && ExprWf(r) && ParseExpr(r) == Ok(b)
    ensures var chain := Node(AndExpr, [l, r]);
            ChainWf(chain) && AndChain(chain) == Ok(Ast.And(a, b))
  {
    var chain := Node(AndExpr, [l, r]);
    assert chain.children[0] == l && chain.children[1] == r;
    assert ChainWf(chain);
    assert AndChainFrom(chain, 2, Ast.And(a, b)) == Ok(Ast.And(a, b));
  }

  /** `( E )`: a parenthesised expression is a term that compiles to the
      expression itself. */
  lemma Parenthesised(e: Pair)
    requires ExprWf(e)
    ensures TermWf(Node(Term, [Node(Expr, [e])]))
    ensures ParseTerm(Node(Term, [Node(Expr, [e])])) == ParseExpr(e)
  {
    ExprWrapper(e);
    assert Node(Term, [Node(Expr, [e])]).children[0] == Node(Expr, [e]);
  }

  /** A chain below a `BinaryExpr` below an `Expr`. */
  lemma BinaryWrapper(chain: Pair)
    requires chain.rule in {AndExpr, OrExpr} && ChainWf(chain)
    ensures ExprWf(Node(Expr, [Node(BinaryExpr, [chain])]))
    ensures ParseExpr(Node(Expr, [Node(BinaryExpr, [chain])])) ==
              if chain.rule == AndExpr then AndChain(chain) else OrChain(chain)
  {
    var binary := Node(BinaryExpr, [chain]);
    assert binary.children[0] == chain;
    BinaryExprDispatch(binary);
    ExprWrapper(binary);
  }

  /** A program whose `Program` node holds the expression `e` compiles
      `e`. */
  lemma ProgramOf(e: Pair)
    requires ExprWf(e)
    ensures ProgramWf([Node(Program, [e])])
    ensures ParseToAst([Node(Program, [e])]) == ParseExpr(e)
  {
    assert [Node(Program, [e])][0].children[0] == e;
  }

  /** `-not T` negates what the term T compiles to. */
  lemma NotOfTerm(t: Pair, a: Ast.Expr)
    requires TermWf(t) && ParseTerm(t) == Ok(a)
    ensures var unary := Node(UnaryExpr, [Node(Other("NotOperator"), []), t]);
            ExprWf(unary) && ParseExpr(unary) == Ok(Ast.Not(a))
  {
    var unary := Node(UnaryExpr, [Node(Other("NotOperator"), []), t]);
    assert unary.children[1] == t;
  }

  /** `(A -or B) C`, whatever the term A and the expressions B and C: the
      parenthesised disjunction, and-ed with C by adjacency. */
  lemma ParenthesisedOrThenAdjacent(l: Pair, r: Pair, c: Pair, a: Ast.Expr, b: Ast.Expr, d: Ast.Expr)
    requires TermWf(l) && ParseTerm(l) == Ok(a)
    requires ExprWf(r) && ParseExpr(r) == Ok(b)
    requires c.rule == Expr && ExprWf(c) && ParseExpr(c) == Ok(d)
    ensures var or := Node(Expr, [Node(BinaryExpr, [Node(OrExpr, [l, Node(OrOperator, []), r])])]);
            var program := [Node(Program, [Node(Expr, [Node(BinaryExpr, [
                             Node(AndExpr, [Node(Term, [or]), c])])])])];
            ProgramWf(program) && ParseToAst(program) == Ok(Ast.And(Ast.Or(a, b), d))
  {
    var orChain := Node(OrExpr, [l, Node(OrOperator, []), r]);
    OrOfTwo(l, r, a, b);
    BinaryWrapper(orChain);
    var or := Node(Expr, [Node(BinaryExpr, [orChain])]);
    Parenthesised(Node(BinaryExpr, [orChain]));
    AndOfAdjacent(Node(Term, [or]), c, Ast.Or(a, b), d);
    var andChain := Node(AndExpr, [Node(Term, [or]), c]);
    BinaryWrapper(andChain);
    ProgramOf(Node(Expr, [Node(BinaryExpr, [andChain])]));
  }

  /** `-not ( E )`: one negation of the expression, the parentheses adding
      nothing. */
  lemma NegatedParenthesis(e: Pair, a: Ast.Expr)
    requires ExprWf(e) && ParseExpr(e) == Ok(a)
    ensures var unary := Node(UnaryExpr, [Node(Other("NotOperator"), []), Node(Term, [Node(Expr, [e])])]);
            var program := [Node(Program, [Node(Expr, [unary])])];
            ProgramWf(program) && ParseToAst(program) == Ok(Ast.Not(a))
  {
    Parenthesised(e);
    NotOfTerm(Node(Term, [Node(Expr, [e])]), a);
    var unary := Node(UnaryExpr, [Node(Other("NotOperator"), []), Node(Term, [Node(Expr, [e])])]);
    ExprWrapper(unary);
    ProgramOf(Node(Expr, [unary]));
  }

  // ---------------------------------------------------------------------
  // Keywords.

  /** The grammar rule of the keyword each test is written with. */
  function Keyword(t: Ast.Test): Rule
  {
    match t
    case Path(_) => Path
    case Name(_) => Name
    case Iname(_) => Iname
    case Regex(_) => Regex
    case True => True
    case False => False
    case Type(_) => Type
    case Size(_) => Size
    case Empty => Empty
    case Amin(_) => Amin
    case Atime(_) => Atime
    case Ctime(_) => Ctime
    case Cmin(_) => Cmin
    case Mmin(_) => Mmin
    case Mtime(_) => Mtime
    case Anewer(_) => Anewer
    case Cnewer(_) => Cnewer
    case Mnewer(_) => Mnewer
    case Newer(_) => Newer
    case Ipath(_) => Ipath
    case Iregex(_) => Iregex
    case User(_) => User
    case Group(_) => Group
    case Uid(_) => Uid
    case Gid(_) => Gid
    case Perm(_) => Perm
  }

  /** The text argument of the tests that carry one. */
  function Argument(t: Ast.Test): Option<string>
  {
    match t
    case Path(s) => Some(s)
    case Name(s) => Some(s)
    case Iname(s) => Some(s)
    case Regex(s) => Some(s)
    case Anewer(s) => Some(s)
    case Cnewer(s) => Some(s)
    case Mnewer(s) => Some(s)
    case Newer(s) => Some(s)
    case Ipath(s) => Some(s)
    case Iregex(s) => Some(s)
    case User(s) => Some(s)
    case Group(s) => Some(s)
    case _ => None
  }

  const TextKeywords: set<Rule> :=
    {Path, Ipath, Name, Iname, Regex, Iregex, Anewer, Cnewer, Mnewer, Newer, User, Group}
  const OtherKeywords: set<Rule> :=
    {True, False, Type, Size, Empty, Amin, Atime, Ctime, Cmin, Mmin, Mtime, Uid, Gid, Perm}

  /** A text keyword never fails: it compiles to the test of that keyword,
      carrying the text of its argument verbatim. */
  lemma TextArgumentsVerbatim(p: Pair)
    requires TestWf(p) && p.children[0].rule in TextKeywords
    ensures ParseTest(p).Ok?
    ensures Keyword(ParseTest(p).value) == p.children[0].rule
    ensures Argument(ParseTest(p).value) == Some(p.children[0].children[0].text)
  {
    var kw := p.children[0];
    var text := kw.children[0].text;
    if kw.rule == Path {
      assert ParseTest(p) == Ok(Ast.Test.Path(text));
    } else if kw.rule == Ipath {
      assert ParseTest(p) == Ok(Ast.Test.Ipath(text));
    } else if kw.rule == Name {
      assert ParseTest(p) == Ok(Ast.Test.Name(text));
    } else if kw.rule == Iname {
      assert ParseTest(p) == Ok(Ast.Test.Iname(text));
    } else if kw.rule == Regex {
      assert ParseTest(p) == Ok(Ast.Test.Regex(text));
    } else if kw.rule == Iregex {
      assert ParseTest(p) == Ok(Ast.Test.Iregex(text));
    } else if kw.rule == Anewer {
      assert ParseTest(p) == Ok(Ast.Test.Anewer(text));
    } else if kw.rule == Cnewer {
      assert ParseTest(p) == Ok(Ast.Test.Cnewer(text));
    } else if kw.rule == Mnewer {
      assert ParseTest(p) == Ok(Ast.Test.Mnewer(text));
    } else if kw.rule == Newer {
      assert ParseTest(p) == Ok(Ast.Test.Newer(text));
    } else if kw.rule == User {
      assert ParseTest(p) == Ok(Ast.Test.User(text));
    } else {
      assert ParseTest(p) == Ok(Ast.Test.Group(text));
    }
  }

  /** A node that is no keyword fails with "expected Test variant" and the
      rule found. */
  lemma UnknownKeywordRejected(p: Pair)
    requires TestWf(p) && p.children[0].rule !in TextKeywords + OtherKeywords
    ensures ParseTest(p) == Err(UnexpectedRule("Test variant", RuleName(p.children[0].rule)))
  {
  }

  /** `-true`, `-false` and `-empty` take no argument and never fail. */
  lemma ConstantKeywordsCompile(p: Pair)
    requires TestWf(p)
    ensures p.children[0].rule == True ==> ParseTest(p) == Ok(Ast.Test.True)
    ensures p.children[0].rule == False ==> ParseTest(p) == Ok(Ast.Test.False)
    ensures p.children[0].rule == Empty ==> ParseTest(p) == Ok(Ast.Test.Empty)
  {
  }

  /** The keywords counting whole minutes, and those counting whole days. */
  const MinuteKeywords: set<Rule> := {Amin, Cmin, Mmin}
  const DayKeywords: set<Rule> := {Atime, Ctime, Mtime}

  /** The time spec of the six time tests. */
  function TimeArgument(t: Ast.Test): Option<Ast.TimeSpec>
  {
    match t
    case Amin(s) => Some(s)
    case Atime(s) => Some(s)
    case Ctime(s) => Some(s)
    case Cmin(s) => Some(s)
    case Mmin(s) => Some(s)
    case Mtime(s) => Some(s)
    case _ => None
  }

  /** `-amin`, `-cmin` and `-mmin` compile to the test of that keyword
      carrying the compiled spec, or fail with the spec's error. */
  lemma MinuteKeywordsCompile(p: Pair)
    requires TestWf(p) && p.children[0].rule in MinuteKeywords
    ensures var spec := TimeSpecOf(p.children[0].children[0]);
            && (spec.Err? ==> ParseTest(p) == Err(spec.error))
            && (spec.Ok? ==>
                  && ParseTest(p).Ok?
                  && Keyword(ParseTest(p).value) == p.children[0].rule
                  && TimeArgument(ParseTest(p).value) == Some(spec.value))
  {
    var kw := p.children[0];
    var spec := TimeSpecOf(kw.children[0]);
    if spec.Ok? {
      var v := spec.value;
      if kw.rule == Amin {
        assert ParseTest(p) == Ok(Ast.Test.Amin(v));
      } else if kw.rule == Cmin {
        assert ParseTest(p) == Ok(Ast.Test.Cmin(v));
      } else {
        assert ParseTest(p) == Ok(Ast.Test.Mmin(v));
      }
    }
  }

  /** `-atime`, `-ctime` and `-mtime`, likewise. */
  lemma DayKeywordsCompile(p: Pair)
    requires TestWf(p) && p.children[0].rule in DayKeywords
    ensures var spec := TimeSpecOf(p.children[0].children[0]);
            && (spec.Err? ==> ParseTest(p) == Err(spec.error))
            && (spec.Ok? ==>
                  && ParseTest(p).Ok?
                  && Keyword(ParseTest(p).value) == p.children[0].rule
                  && TimeArgument(ParseTest(p).value) == Some(spec.value))
  {
    var kw := p.children[0];
    var spec := TimeSpecOf(kw.children[0]);
    if spec.Ok? {
      var v := spec.value;
      if kw.rule == Atime {
        assert ParseTest(p) == Ok(Ast.Test.Atime(v));
      } else if kw.rule == Ctime {
        assert ParseTest(p) == Ok(Ast.Test.Ctime(v));
      } else {
        assert ParseTest(p) == Ok(Ast.Test.Mtime(v));
      }
    }
  }

  /** `-type`, `-size` and `-perm` carry what their decoder compiles, or
      fail with its error. */
  lemma SpecKeywordsCompile(p: Pair)
    requires TestWf(p)
    ensures p.children[0].rule == Type ==>
              var ft := ParseFileType(p.children[0].children[0]);
              ParseTest(p) == if ft.Ok? then Ok(Ast.Test.Type(ft.value)) else Err(ft.error)
    ensures p.children[0].rule == Size ==>
              var spec := SizeSpecOf(p.children[0].children[0]);
              ParseTest(p) == if spec.Ok? then Ok(Ast.Test.Size(spec.value)) else Err(spec.error)
    ensures p.children[0].rule == Perm ==>
              var spec := PermSpecOf(p.children[0].children);
              ParseTest(p) == if spec.Ok? then Ok(Ast.Test.Perm(spec.value)) else Err(spec.error)
  {
  }

  // ---------------------------------------------------------------------
  // Decoders: the rule of each variant, read back.

  /** The rules `parse_filetype` accepts. */
  const FileTypeRules: set<Rule> := {BlockFile, CharFile, Directory, NamedPipe, RegularFile, SymbolicLink, Socket}

  function FileTypeRule(t: Ast.FileType): (r: Rule)
    ensures r in FileTypeRules
  {
    match t
    case BlockFile => BlockFile
    case CharFile => CharFile
    case Directory => Directory
    case NamedPipe => NamedPipe
    case RegularFile => RegularFile
    case SymbolicLink => SymbolicLink
    case Socket => Socket
  }

  /** `parse_filetype` reads each file type's rule back as that type, and
      any other rule as "expected FileType". */
  lemma FileTypeDecoded(p: Pair, t: Ast.FileType)
    requires HasInner(p)
    ensures p.children[0].rule == FileTypeRule(t) ==> ParseFileType(p) == Ok(t)
    ensures p.children[0].rule !in FileTypeRules ==>
              ParseFileType(p) == Err(UnexpectedRule("FileType", RuleName(p.children[0].rule)))
  {
  }

  const SizeSuffixRules: set<Rule> := {Blocks, Bytes, Words, Kb, Mb, Gb}

  function SizeSuffixRule(u: Ast.SizeSuffix): (r: Rule)
    ensures r in SizeSuffixRules
  {
    match u
    case Blocks => Blocks
    case Bytes => Bytes
    case Words => Words
    case Kb => Kb
    case Mb => Mb
    case Gb => Gb
  }

  /** The suffix decoder of `parse_sizespec`. */
  lemma SizeSuffixDecoded(p: Pair, u: Ast.SizeSuffix)
    requires HasInner(p)
    ensures p.children[0].rule == SizeSuffixRule(u) ==> ParseSizeSuffix(p) == Ok(u)
    ensures p.children[0].rule !in SizeSuffixRules ==>
              ParseSizeSuffix(p) == Err(UnexpectedRule("SizeSuffix", RuleName(p.children[0].rule)))
  {
  }

  /** The rule a sign is written with; no sign has none. */
  function SignRule(s: Ast.Sign): (r: Option<Rule>)
    ensures r.Some? ==> r.value in {Plus, Minus}
  {
    match s
    case Plus => Some(Plus)
    case Minus => Some(Minus)
    case None => None
  }

  /** The sign decoder of `parse_sizespec` and `parse_timespec`: `+` and
      `-` read back as themselves, any other rule as no sign. */
  lemma SignDecoded(p: Pair, s: Ast.Sign)
    requires HasInner(p)
    ensures SignRule(s) == Some(p.children[0].rule) ==> SignOf(p) == s
    ensures p.children[0].rule !in {Plus, Minus} ==> SignOf(p) == Ast.Sign.None
  {
  }

  const PermPrefixRules: set<Rule> := {PermAllMode, PermAnyMode}

  function PermPrefixRule(x: Ast.PermPrefix): (r: Rule)
    ensures r in PermPrefixRules
  {
    match x
    case AllMode => PermAllMode
    case AnyMode => PermAnyMode
  }

  /** `parse_perm_prefix`. */
  lemma PermPrefixDecoded(p: Pair, x: Ast.PermPrefix)
    requires HasInner(p)
    ensures p.children[0].rule == PermPrefixRule(x) ==> ParsePermPrefix(p) == Ok(x)
    ensures p.children[0].rule !in PermPrefixRules ==>
              ParsePermPrefix(p) == Err(UnexpectedRule("PermAllMode or PermAnyMode", RuleName(p.children[0].rule)))
  {
  }

  const PrincipalRules: set<Rule> := {SymPrincipalUser, SymPrincipalGroup, SymPrincipalOther, SymPrincipalAll}

  function PrincipalRule(x: Ast.SymPrincipal): (r: Rule)
    ensures r in PrincipalRules
  {
    match x
    case User => SymPrincipalUser
    case Group => SymPrincipalGroup
    case Other => SymPrincipalOther
    case All => SymPrincipalAll
  }

  /** `parse_sym_principal`. */
  lemma PrincipalDecoded(p: Pair, x: Ast.SymPrincipal)
    requires HasInner(p)
    ensures p.children[0].rule == PrincipalRule(x) ==> ParseSymPrincipal(p) == Ok(x)
    ensures p.children[0].rule !in PrincipalRules ==>
              ParseSymPrincipal(p) == Err(UnexpectedRule("SymPrincipal variant", RuleName(p.children[0].rule)))
  {
  }

  const OperatorRules: set<Rule> := {SymPermOperAdd, SymPermOperRemove, SymPermOperSet}

  function OperatorRule(x: Ast.SymPermOperator): (r: Rule)
    ensures r in OperatorRules
  {
    match x
    case Add => SymPermOperAdd
    case Remove => SymPermOperRemove
    case Set => SymPermOperSet
  }

  /** `parse_sym_perm_operator`. */
  lemma OperatorDecoded(p: Pair, x: Ast.SymPermOperator)
    requires HasInner(p)
    ensures p.children[0].rule == OperatorRule(x) ==> ParseSymPermOperator(p) == Ok(x)
    ensures p.children[0].rule !in OperatorRules ==>
              ParseSymPermOperator(p) == Err(UnexpectedRule("SymPermOperator variant", RuleName(p.children[0].rule)))
  {
  }

  const PrivilegeRules: set<Rule> := {SymPermRead, SymPermWrite, SymPermExecute}

  function PrivilegeRule(x: Ast.SymPermPriv): (r: Rule)
    ensures r in PrivilegeRules
  {
    match x
    case Read => SymPermRead
    case Write => SymPermWrite
    case Execute => SymPermExecute
  }

  /** `parse_sym_perm_priv`. */
  lemma PrivilegeDecoded(p: Pair, x: Ast.SymPermPriv)
    requires HasInner(p)
    ensures p.children[0].rule == PrivilegeRule(x) ==> ParseSymPermPriv(p) == Ok(x)
    ensures p.children[0].rule !in PrivilegeRules ==>
              ParseSymPermPriv(p) == Err(UnexpectedRule("SymPermPriv variant", RuleName(p.children[0].rule)))
  {
  }

  /** `parse_perm_term`: a symbolic term is the list of its statements in
      order, or the first statement's error; a rule that is neither kind of
      term is rejected. */
  lemma PermTermDispatch(p: Pair)
    requires PermTermWf(p)
    ensures p.children[0].rule == SymPermTerm ==>
              var statements := StmtScan(p.children[0].children, 0, []);
              ParsePermTerm(p) == if statements.Ok? then Ok(Ast.Symbolic(statements.value)) else Err(statements.error)
    ensures p.children[0].rule !in {NumPermTerm, SymPermTerm} ==>
              ParsePermTerm(p) == Err(UnexpectedRule("NumPermTerm or SymPermTerm", RuleName(p.children[0].rule)))
  {
  }
}
