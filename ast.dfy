/** The abstract syntax tree of the find expression language (src/ast.rs):
    logical combinators over named tests, and the two one-letter `Display`
    mappings. */
module Ast {
  import opened Numbers
  import Wrappers

  /** An expression: every leaf is a `Test`. */
  datatype Expr =
    | Not(inner: Expr)
    | And(left: Expr, right: Expr)
    | Or(left: Expr, right: Expr)
    | Test(test: Test)

  datatype Test =
    | Path(pattern: string)
    | Name(pattern: string)
    | Iname(pattern: string)
    | Regex(pattern: string)
    | True
    | False
    | Type(fileType: FileType)
    | Size(sizeSpec: SizeSpec)
    | Empty
    | Amin(timeSpec: TimeSpec)
    | Atime(timeSpec: TimeSpec)
    | Ctime(timeSpec: TimeSpec)
    | Cmin(timeSpec: TimeSpec)
    | Mmin(timeSpec: TimeSpec)
    | Mtime(timeSpec: TimeSpec)
    | Anewer(filePath: string)
    | Cnewer(filePath: string)
    | Mnewer(filePath: string)
    | Newer(filePath: string)
    | Ipath(pattern: string)
    | Iregex(pattern: string)
    | User(userName: string)
    | Group(groupName: string)
    | Uid(uid: u32)
    | Gid(gid: u32)
    | Perm(permSpec: PermSpec)

  datatype FileType =
    BlockFile | CharFile | Directory | NamedPipe | RegularFile | SymbolicLink | Socket

  datatype Sign = None | Plus | Minus

  datatype SizeSuffix = Blocks | Bytes | Words | Kb | Mb | Gb

  datatype SizeSpec = SizeSpec(sign: Sign, value: u64, suffix: Wrappers.Option<SizeSuffix>)

  /** The unit (minutes or days) is chosen by the test that carries it. */
  datatype TimeSpec = TimeSpec(sign: Sign, value: u64)

  /** An absent prefix means an exact match. */
  datatype PermSpec = PermSpec(prefix: Wrappers.Option<PermPrefix>, term: PermTerm)

  datatype PermPrefix = AllMode | AnyMode

  datatype PermTerm = Numeric(mode: u32) | Symbolic(statements: seq<SymPermStatement>)

  datatype SymPermStatement =
    SymPermStatement(principal: SymPrincipal, operator: SymPermOperator, privileges: seq<SymPermPriv>)

  datatype SymPrincipal = User | Group | Other | All

  datatype SymPermOperator = Add | Remove | Set

  datatype SymPermPriv = Read | Write | Execute

  /** `Display for FileType`: the letter `-type` takes for each kind. */
  function FileTypeLetter(t: FileType): (s: string)
    ensures |s| == 1 && s[0] in "bcdpfls"
  {
    match t
    case BlockFile => "b"
    case CharFile => "c"
    case Directory => "d"
    case NamedPipe => "p"
    case RegularFile => "f"
    case SymbolicLink => "l"
    case Socket => "s"
  }

  /** Two file types never display alike. */
  lemma FileTypeLetterInjective(a: FileType, b: FileType)
    ensures FileTypeLetter(a) == FileTypeLetter(b) ==> a == b
  {
  }

  /** `Display for SizeSuffix`: the letter `-size` takes for each unit. */
  function SizeSuffixLetter(u: SizeSuffix): (s: string)
    ensures |s| == 1 && s[0] in "bcwkMG"
  {
    match u
    case Blocks => "b"
    case Bytes => "c"
    case Words => "w"
    case Kb => "k"
    case Mb => "M"
    case Gb => "G"
  }

  /** Two size suffixes never display alike. */
  lemma SizeSuffixLetterInjective(a: SizeSuffix, b: SizeSuffix)
    ensures SizeSuffixLetter(a) == SizeSuffixLetter(b) ==> a == b
  {
  }

  /** The tests at the leaves of an expression, left to right. A finite tree
      always has at least one. */
  function Leaves(e: Expr): (ts: seq<Test>)
    ensures |ts| >= 1
    ensures e.Test? ==> ts == [e.test]
  {
    match e
    case Not(x) => Leaves(x)
    case And(l, r) => Leaves(l) + Leaves(r)
    case Or(l, r) => Leaves(l) + Leaves(r)
    case Test(t) => [t]
  }

  /** The number of `Not`, `And` and `Or` nodes above the leaves. */
  function Operators(e: Expr): nat
  {
    match e
    case Not(x) => 1 + Operators(x)
    case And(l, r) => 1 + Operators(l) + Operators(r)
    case Or(l, r) => 1 + Operators(l) + Operators(r)
    case Test(_) => 0
  }

  /** Each binary node joins exactly two subtrees, so a tree has one leaf more
      than it has binary nodes and at most as many leaves as nodes plus one. */
  lemma {:induction false} LeavesBound(e: Expr)
    ensures 1 <= |Leaves(e)| <= Operators(e) + 1
  {
    match e
    case Not(x) => LeavesBound(x);
    case And(l, r) => LeavesBound(l); LeavesBound(r);
    case Or(l, r) => LeavesBound(l); LeavesBound(r);
    case Test(_) =>
  }

  /** True when no leaf is a `-perm` test: the expressions the evaluator
      has an arm for. */
  predicate PermFree(e: Expr)
  {
    match e
    case Not(x) => PermFree(x)
    case And(l, r) => PermFree(l) && PermFree(r)
    case Or(l, r) => PermFree(l) && PermFree(r)
    case Test(t) => !t.Perm?
  }

  /** The recursive test agrees with a scan of the leaves. */
  lemma {:induction false} PermFreeLeaves(e: Expr)
    ensures PermFree(e) <==> NoPerm(Leaves(e))
  {
    match e
    case Not(x) => PermFreeLeaves(x);
    case And(l, r) => PermFreeLeaves(l); PermFreeLeaves(r); NoPermConcat(Leaves(l), Leaves(r));
    case Or(l, r) => PermFreeLeaves(l); PermFreeLeaves(r); NoPermConcat(Leaves(l), Leaves(r));
    case Test(t) => assert Leaves(e)[0] == t;
  }

  predicate NoPerm(ts: seq<Test>)
  {
    forall k :: 0 <= k < |ts| ==> !ts[k].Perm?
  }

  lemma NoPermConcat(a: seq<Test>, b: seq<Test>)
    ensures NoPerm(a + b) <==> NoPerm(a) && NoPerm(b)
  {
    if NoPerm(a + b) {
      forall k | 0 <= k < |a| ensures !a[k].Perm? {
        assert (a + b)[k] == a[k];
      }
      forall k | 0 <= k < |b| ensures !b[k].Perm? {
        assert (a + b)[|a| + k] == b[k];
      }
    }
    if NoPerm(a) && NoPerm(b) {
      forall k | 0 <= k < |a + b| ensures !(a + b)[k].Perm? {
        if k < |a| {
          assert (a + b)[k] == a[k];
        } else {
          assert (a + b)[k] == b[k - |a|];
        }
      }
    }
  }
}
