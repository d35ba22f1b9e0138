/** The checker's message table and what a visit produces. */
module Messages {
  import opened Ast

  /** The four message symbols the checker declares. */
  datatype Symbol =
    | TimedeltaNoKeywordArgs
    | CallWithoutTimezone
    | NaiveObjectUsed
    | MissingTimezoneReplace

  /** The stable symbolic name under which pylint reports a message. */
  function SymbolName(s: Symbol): string {
    match s
    case TimedeltaNoKeywordArgs => "datetime-timedelta-no-keyword-args"
    case CallWithoutTimezone => "datetime-call-without-timezone"
    case NaiveObjectUsed => "datetime-naive-object-used"
    case MissingTimezoneReplace => "datetime-missing-timezone-replace"
  }

  /** How many `%s` placeholders the symbol's message template has: the
      timedelta text has none, the three others name one function or attribute. */
  function Arity(s: Symbol): nat {
    if s == TimedeltaNoKeywordArgs then 0 else 1
  }

  /** Distinct symbols have distinct names, so a report keyed by name
      identifies its rule. */
  lemma SymbolNamesDistinct(s: Symbol, t: Symbol)
    ensures SymbolName(s) == SymbolName(t) <==> s == t
  {
  }

  /** The node a message is reported on. */
  datatype Anchor = AtExpr(e: Expr) | AtAssign(a: Assign)

  /** One call to `add_message(symbol, node=anchor, args=args)`. */
  datatype Message = Message(symbol: Symbol, anchor: Anchor, args: seq<string>)

  /** A message fills exactly the placeholders of its template. */
  predicate WellFormed(m: Message) {
    |m.args| == Arity(m.symbol)
  }

  /** The places where the checker raises instead of returning. */
  datatype Fault =
    | CalleeWithoutName       // `assert False` when the callee has no name
    | ArgumentWithoutValue    // `argument.value` on a timedelta argument without one
    | CalleeNotAttribute      // `assert isinstance(func, nodes.Attribute)` in visit_assign
    | SiblingWithoutValue     // `next_node.value` on a statement without one

  /** What one visit does: the messages it adds, in order, or the exception
      it raises. In both visitors a fault is raised before any message is
      added, so a failed visit adds nothing. */
  datatype Outcome = Emitted(messages: seq<Message>) | Failed(fault: Fault)
}
