/** The C statements the ConvInteger generator emits for one output cell, as a
    small syntax tree: how each statement is spelled, and what it does to the
    variables of the cell when the generated code runs. */
module CFragment {
  import opened Wrappers
  import CArith

  /** The variables the fragments read and write inside one output cell:
      the 32-bit accumulator `cell`, the scratch `tmp`, the weight copy `w_`,
      and the output element `y[b][m][o0][o1]`. */
  datatype Var = Cell | Tmp | WeightCopy | OutputCell

  datatype Comparison = Greater | Less

  datatype Expr =
    | Lit(value: int)
    | Ref(v: Var)
      /** `x[b][c][i0+k0][i1+k1]`: the input element under the current kernel tap. */
    | DataAtTap
      /** The weight under the current kernel tap, spelled by the generator's
          constant-access helper. */
    | WeightAtTap(access: string)
      /** `x_zero_point[0]`, spelled by the same helper. */
    | DataZeroPoint(access: string)
      /** Always written in parentheses. */
    | Minus(lhs: Expr, rhs: Expr)
    | Times(lhs: Expr, rhs: Expr)
    | Quotient(lhs: Expr, rhs: Expr)
      /** `lhs op rhs?ifTrue:ifFalse` */
    | Select(lhs: Expr, op: Comparison, rhs: Expr, ifTrue: Expr, ifFalse: Expr)

  datatype Stmt =
    | Declare(typeName: string, v: Var, init: Expr)
    | Assign(v: Var, e: Expr)
    | AddAssign(v: Var, e: Expr)

  /** The values of the four variables of one output cell. */
  datatype Frame = Frame(cell: int, tmp: int, weightCopy: int, output: int)

  /** The values the generated code reads from its tensors at the current kernel
      tap: the input element, the weight, and the input zero point. */
  datatype TapOperands = TapOperands(x: int, w: int, xZero: int)

  // ---------- spelling ----------

  function VarName(v: Var): string {
    match v
    case Cell => "cell"
    case Tmp => "tmp"
    case WeightCopy => "w_"
    case OutputCell => "y[b][m][o0][o1]"
  }

  function ComparisonText(op: Comparison): string {
    match op
    case Greater => " > "
    case Less => " < "
  }

  function ExprText(e: Expr): string {
    match e
    case Lit(n) => CArith.DecimalText(n)
    case Ref(v) => VarName(v)
    case DataAtTap => "x[b][c][i0+k0][i1+k1]"
    case WeightAtTap(access) => access
    case DataZeroPoint(access) => access
    case Minus(a, b) => "(" + ExprText(a) + " - " + ExprText(b) + ")"
    case Times(a, b) => ExprText(a) + " * " + ExprText(b)
    case Quotient(a, b) => ExprText(a) + "/" + ExprText(b)
    case Select(a, op, b, t, f) =>
      ExprText(a) + ComparisonText(op) + ExprText(b) + "?" + ExprText(t) + ":" + ExprText(f)
  }

  function StmtText(s: Stmt): string {
    match s
    case Declare(t, v, e) => t + " " + VarName(v) + " = " + ExprText(e) + ";"
    case Assign(v, e) => VarName(v) + " = " + ExprText(e) + ";"
    case AddAssign(v, e) => VarName(v) + "+= " + ExprText(e) + ";"
  }

  /** One line of generated code: the indentation, the text, `std::endl`. */
  function Line(indent: string, content: string): string {
    indent + content + "\n"
  }

  /** One line per statement, all behind the same indentation. */
  function BlockText(indent: string, code: seq<Stmt>): (text: string)
    ensures code == [] ==> text == ""
  {
    if code == [] then "" else Line(indent, StmtText(code[0])) + BlockText(indent, code[1..])
  }

  // ---------- meaning ----------

  function Load(f: Frame, v: Var): int {
    match v
    case Cell => f.cell
    case Tmp => f.tmp
    case WeightCopy => f.weightCopy
    case OutputCell => f.output
  }

  function Store(f: Frame, v: Var, n: int): (g: Frame)
    ensures Load(g, v) == n
    ensures forall u :: u != v ==> Load(g, u) == Load(f, u)
  {
    match v
    case Cell => f.(cell := n)
    case Tmp => f.(tmp := n)
    case WeightCopy => f.(weightCopy := n)
    case OutputCell => f.(output := n)
  }

  /** The value of an expression; None where C leaves it undefined (a division
      by zero). */
  function Eval(e: Expr, ops: TapOperands, f: Frame): Option<int> {
    match e
    case Lit(n) => Some(n)
    case Ref(v) => Some(Load(f, v))
    case DataAtTap => Some(ops.x)
    case WeightAtTap(_) => Some(ops.w)
    case DataZeroPoint(_) => Some(ops.xZero)
    case Minus(a, b) =>
      (match (Eval(a, ops, f), Eval(b, ops, f))
       case (Some(x), Some(y)) => Some(x - y)
       case _ => None)
    case Times(a, b) =>
      (match (Eval(a, ops, f), Eval(b, ops, f))
       case (Some(x), Some(y)) => Some(x * y)
       case _ => None)
    case Quotient(a, b) =>
      (match (Eval(a, ops, f), Eval(b, ops, f))
       case (Some(x), Some(y)) => if y == 0 then None else Some(CArith.TruncDiv(x, y))
       case _ => None)
    case Select(a, op, b, t, u) =>
      (match (Eval(a, ops, f), Eval(b, ops, f))
       case (Some(x), Some(y)) =>
         var holds := match op case Greater => x > y case Less => x < y;
         if holds then Eval(t, ops, f) else Eval(u, ops, f)
       case _ => None)
  }

  function Exec(s: Stmt, ops: TapOperands, f: Frame): Option<Frame> {
    match s
    case Declare(_, v, e) => (match Eval(e, ops, f) case Some(n) => Some(Store(f, v, n)) case None => None)
    case Assign(v, e) => (match Eval(e, ops, f) case Some(n) => Some(Store(f, v, n)) case None => None)
    case AddAssign(v, e) => (match Eval(e, ops, f) case Some(n) => Some(Store(f, v, Load(f, v) + n)) case None => None)
  }

  /** Runs the statements in order; None once one of them is undefined. */
  function Run(code: seq<Stmt>, ops: TapOperands, f: Frame): Option<Frame> {
    if code == [] then Some(f)
    else match Exec(code[0], ops, f)
      case Some(g) => Run(code[1..], ops, g)
      case None => None
  }

  /** The text of a two-statement block, line by line. */
  lemma BlockTextTwo(indent: string, code: seq<Stmt>)
    requires |code| == 2
    ensures BlockText(indent, code) == Line(indent, StmtText(code[0])) + Line(indent, StmtText(code[1]))
  {
    assert code[1..][1..] == [];
    assert BlockText(indent, code[1..]) == Line(indent, StmtText(code[1])) + "";
  }

  /** The text of a four-statement block, line by line. */
  lemma BlockTextFour(indent: string, code: seq<Stmt>)
    requires |code| == 4
    ensures BlockText(indent, code)
      == Line(indent, StmtText(code[0])) + Line(indent, StmtText(code[1]))
       + Line(indent, StmtText(code[2])) + Line(indent, StmtText(code[3]))
  {
    var l0, l1, l2, l3 := Line(indent, StmtText(code[0])), Line(indent, StmtText(code[1])),
                          Line(indent, StmtText(code[2])), Line(indent, StmtText(code[3]));
    BlockTextTwo(indent, code[2..]);
    assert code[1..][1..] == code[2..];
    assert BlockText(indent, code[2..]) == l2 + l3;
    assert BlockText(indent, code[1..]) == l1 + (l2 + l3);
    assert BlockText(indent, code) == l0 + (l1 + (l2 + l3));
    assert l0 + (l1 + (l2 + l3)) == l0 + l1 + l2 + l3;
  }

  /** Running a block runs its statements one after the other. */
  lemma RunLines(code: seq<Stmt>, ops: TapOperands, f: Frame)
    requires code != []
    ensures Run(code, ops, f) == match Exec(code[0], ops, f)
      case Some(g) => Run(code[1..], ops, g)
      case None => None
    ensures |code| == 1 && Exec(code[0], ops, f).Some? ==> Run(code, ops, f) == Exec(code[0], ops, f)
  {
    if |code| == 1 {
      assert code[1..] == [];
    }
  }
}
