/** A read-only view of the astroid nodes that the datetime checker inspects.
    Only the node kinds and attributes the checker looks at are kept; every
    other expression is `Other`. */
module Ast {

  datatype Option<+T> = None | Some(value: T)

  /** The Python value held by a `Const` node. Floats are abstracted as
      (finite) reals; bytes, `...` and NaN are `OtherC`, since none of them
      compares equal to 0. */
  datatype Constant =
    | IntC(i: int)
    | BoolC(b: bool)
    | FloatC(r: real)
    | ComplexC(re: real, im: real)
    | StrC(s: string)
    | NoneC
    | OtherC

  /** Python's `c == 0` for a constant `c` (so `False == 0` and `0.0 == 0`). */
  predicate EqualsZero(c: Constant) {
    match c
    case IntC(i) => i == 0
    case BoolC(b) => !b
    case FloatC(r) => r == 0.0
    case ComplexC(re, im) => re == 0.0 && im == 0.0
    case _ => false
  }

  /** Expression nodes. `FunctionDef` is kept because the callee classifier
      accepts it alongside `Name`. `Other(hasValueAttr)` is any other node;
      `hasValueAttr` says whether its kind carries a `.value` child node
      (`Subscript`, `Starred`, `Await`, ...) or not (`UnaryOp`, `BinOp`, ...). */
  datatype Expr =
    | Name(name: string)
    | FunctionDef(name: string)
    | Attribute(expr: Expr, attrname: string)
    | Call(func: Expr, args: seq<Expr>, keywords: seq<Keyword>)
    | Const(value: Constant)
    | Other(hasValueAttr: bool)

  /** A keyword argument `arg=value`; `arg` is `None` for `**kwargs`. */
  datatype Keyword = Keyword(arg: Option<string>, value: Expr)

  /** What reading `.value` on a node yields: the constant of a `Const`, or a
      child node (which never compares equal to 0). */
  datatype PyValue = ConstValue(c: Constant) | NodeValue

  /** The `.value` attribute of a node; `None` where reading it would raise
      `AttributeError` (names, attribute accesses, calls, operators). */
  function ValueAttr(e: Expr): (r: Option<PyValue>)
    ensures r.Some? <==> e.Const? || (e.Other? && e.hasValueAttr)
    ensures e.Const? ==> r == Some(ConstValue(e.value))
    ensures e.Other? && e.hasValueAttr ==> r == Some(NodeValue)
  {
    match e
    case Const(c) => Some(ConstValue(c))
    case Other(hasValueAttr) => if hasValueAttr then Some(NodeValue) else None
    case _ => None
  }

  /** Python's `v != 0`. */
  predicate NotEqualZero(v: PyValue) {
    match v
    case ConstValue(c) => !EqualsZero(c)
    case NodeValue => true
  }

  /** The result of type inference on an assignment target, supplied by the
      front end: `Uninferable`, or an inferred value whose `qname()` is given. */
  datatype InferredType = Uninferable | Inferred(qname: string)

  /** The first target of an assignment. */
  datatype Target = AssignName(name: string, inferred: InferredType) | OtherTarget

  /** A statement, seen only through its `.value` attribute: `None` for a
      statement kind without one (`if`, `for`, `pass`, `import`, ...). A
      `.value` that is Python `None` (a bare `return`) is written `Other(false)`,
      which the checker treats the same way. */
  datatype Statement = Statement(value: Option<Expr>)

  /** An assignment `target = value`, with the statement that follows it in
      the same block, if any. */
  datatype Assign = Assign(target: Target, value: Expr, next: Option<Statement>)
}
