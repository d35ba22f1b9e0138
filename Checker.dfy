/** The rule logic of `DatetimeChecker`: what `visit_call` and `visit_assign`
    report for one node. Each visitor is specified by a function on the node
    (`CallOutcome`, `AssignOutcome`) and implemented by a method that follows
    the checker's own steps, adding messages one at a time. */
module DatetimeChecker {
  import opened Ast
  import opened Messages

  /** Callee names that trigger each of the three call rules. */
  const TimedeltaName: string := "timedelta"
  const TimezoneCallNames: set<string> := {"datetime", "now", "fromtimestamp", "astimezone"}
  const NaiveCallNames: set<string> := {"today", "utcnow", "utcfromtimestamp", "utctimetuple", "time"}

  /** Keyword names accepted as timezone evidence: by the call rule, and by
      the follow-up `replace` check (which does not accept `tz`). */
  const TimezoneKeywords: set<string> := {"tz", "tzinfo"}
  const ReplaceTimezoneKeywords: set<string> := {"tzinfo"}

  /** Inferred types, attributes and alternate constructors that make an
      assignment subject to the replace check. */
  const NaiveTypeNames: set<string> := {"datetime.datetime", "datetime.time"}
  const NaiveAttributes: set<string> := {"min", "max"}
  const NaiveConstructors: set<string> := {"fromordinal", "fromisocalendar"}
  const ReplaceName: string := "replace"

  // ---------------------------------------------------------------------------
  // Callee classification and argument inspection

  /** The name a call's callee is known by: the name of a `Name` or
      `FunctionDef`, the attribute of an `Attribute` (its base is ignored).
      `None` where the checker's `assert False` fires. */
  function CalleeName(func: Expr): (r: Option<string>)
    ensures r.Some? <==> func.Name? || func.FunctionDef? || func.Attribute?
    ensures func.Name? || func.FunctionDef? ==> r == Some(func.name)
    ensures func.Attribute? ==> r == Some(func.attrname)
  {
    match func
    case Name(name) => Some(name)
    case FunctionDef(name) => Some(name)
    case Attribute(_, attrname) => Some(attrname)
    case _ => None
  }

  /** Some keyword argument's name is one of `names` (its value is not looked at). */
  predicate HasKeywordNamed(keywords: seq<Keyword>, names: set<string>) {
    exists k :: k in keywords && k.arg.Some? && k.arg.value in names
  }

  /** Some positional argument is an attribute access, taken as a timezone
      object passed positionally. */
  predicate HasAttributeArgument(args: seq<Expr>) {
    exists a :: a in args && a.Attribute?
  }

  /** The call carries timezone evidence: a keyword from `names`, or an
      attribute-access positional argument. */
  predicate HasTimezoneEvidence(call: Expr, names: set<string>)
    requires call.Call?
  {
    HasKeywordNamed(call.keywords, names) || HasAttributeArgument(call.args)
  }

  /** `check_function_called_with_timezone`: the message it adds for `node`,
      called as `funcName`, if any. */
  function TimezoneMessages(node: Expr, funcName: string): (r: seq<Message>)
    requires node.Call?
    ensures |r| <= 1
    ensures r == [Message(CallWithoutTimezone, AtExpr(node), [funcName])] <==>
      !HasKeywordNamed(node.keywords, TimezoneKeywords) && !HasAttributeArgument(node.args)
    ensures r == [] <==>
      HasKeywordNamed(node.keywords, TimezoneKeywords) || HasAttributeArgument(node.args)
  {
    if HasTimezoneEvidence(node, TimezoneKeywords) then []
    else [Message(CallWithoutTimezone, AtExpr(node), [funcName])]
  }

  // ---------------------------------------------------------------------------
  // visit_call

  /** Where the scan over a timedelta call's positional arguments stops. */
  datatype Scan =
    | Quiet   // every argument equals 0
    | Fire    // an argument differing from 0 came before any argument without a value
    | Stuck   // an argument without a `.value` came before any argument differing from 0

  /** A positional argument that compares equal to 0. */
  predicate ZeroArgument(e: Expr) {
    ValueAttr(e).Some? && !NotEqualZero(ValueAttr(e).value)
  }

  /** A positional argument that compares unequal to 0. */
  predicate NonZeroArgument(e: Expr) {
    ValueAttr(e).Some? && NotEqualZero(ValueAttr(e).value)
  }

  /** The first `n` arguments all equal 0. */
  predicate ZeroPrefix(args: seq<Expr>, n: int)
    requires 0 <= n <= |args|
  {
    forall j :: 0 <= j < n ==> ZeroArgument(args[j])
  }

  /** The timedelta scan, argument by argument. */
  function TimedeltaScan(args: seq<Expr>): Scan
  {
    if args == [] then Quiet
    else if ValueAttr(args[0]).None? then Stuck
    else if NotEqualZero(ValueAttr(args[0]).value) then Fire
    else TimedeltaScan(args[1..])
  }

  /** What `visit_call` does for the call `node`. */
  function CallOutcome(node: Expr): Outcome
    requires node.Call?
  {
    match CalleeName(node.func)
    case None => Failed(CalleeWithoutName)
    case Some(name) =>
      var scan := if name == TimedeltaName then TimedeltaScan(node.args) else Quiet;
      if scan == Stuck then Failed(ArgumentWithoutValue)
      else Emitted(
        (if scan == Fire then [Message(TimedeltaNoKeywordArgs, AtExpr(node), [])] else [])
        + (if name in TimezoneCallNames then TimezoneMessages(node, name) else [])
        + (if name in NaiveCallNames then [Message(NaiveObjectUsed, AtExpr(node), [name])] else []))
  }

  /** `visit_call`: classify the callee, scan a timedelta call's positional
      arguments until the first one differing from 0, then apply the timezone
      and naive-call rules. */
  method VisitCall(node: Expr) returns (out: Outcome)
    requires node.Call?
    ensures out == CallOutcome(node)
  {
    var funcName: string;
    match node.func {
      case Name(name) => funcName := name;
      case FunctionDef(name) => funcName := name;
      case Attribute(_, attrname) => funcName := attrname;
      case _ => return Failed(CalleeWithoutName);
    }
    var messages: seq<Message> := [];

    if funcName == TimedeltaName {
      var i := 0;
      while i < |node.args|
        invariant 0 <= i <= |node.args|
        invariant messages == []
        invariant TimedeltaScan(node.args[i..]) == TimedeltaScan(node.args)
      {
        var value := ValueAttr(node.args[i]);
        if value.None? {
          return Failed(ArgumentWithoutValue);
        }
        if NotEqualZero(value.value) {
          messages := messages + [Message(TimedeltaNoKeywordArgs, AtExpr(node), [])];
          break;
        }
        assert node.args[i..][1..] == node.args[i + 1..];
        i := i + 1;
      }
    }

    if funcName in TimezoneCallNames {
      messages := messages + TimezoneMessages(node, funcName);
    }

    if funcName in NaiveCallNames {
      messages := messages + [Message(NaiveObjectUsed, AtExpr(node), [funcName])];
    }
    return Emitted(messages);
  }

  // ---------------------------------------------------------------------------
  // visit_assign

  /** A call of a method named `replace`, on any receiver. */
  predicate IsReplaceCall(e: Expr) {
    e.Call? && e.func.Attribute? && e.func.attrname == ReplaceName
  }

  /** What `naive_properties_methods_replace` does for the assignment `node`
      whose value matched as `matched`. */
  function ReplaceCheck(node: Assign, matched: string): Outcome {
    match node.next
    case None => Emitted([Message(MissingTimezoneReplace, AtAssign(node), [matched])])
    case Some(sibling) =>
      match sibling.value
      case None => Failed(SiblingWithoutValue)
      case Some(v) =>
        if !IsReplaceCall(v) then Emitted([Message(MissingTimezoneReplace, AtAssign(node), [matched])])
        else if HasTimezoneEvidence(v, ReplaceTimezoneKeywords) then Emitted([])
        else Emitted([Message(CallWithoutTimezone, AtExpr(v), [ReplaceName])])
  }

  /** `naive_properties_methods_replace`: look at the statement after the
      assignment, tracking whether there was one in `nextIsEmpty`. */
  method NaivePropertiesMethodsReplace(node: Assign, assignedValue: string) returns (out: Outcome)
    ensures out == ReplaceCheck(node, assignedValue)
  {
    var messages: seq<Message> := [];
    var nextNode := node.next;
    var nextIsEmpty := true;
    if nextNode.Some? {
      nextIsEmpty := false;
      var value := nextNode.value.value;
      if value.None? {
        return Failed(SiblingWithoutValue);
      }
      var call := value.value;
      if IsReplaceCall(call) {
        if !HasKeywordNamed(call.keywords, ReplaceTimezoneKeywords) && !HasAttributeArgument(call.args) {
          messages := messages + [Message(CallWithoutTimezone, AtExpr(call), [ReplaceName])];
        }
      } else {
        messages := messages + [Message(MissingTimezoneReplace, AtAssign(node), [assignedValue])];
      }
    }
    if nextIsEmpty {
      messages := messages + [Message(MissingTimezoneReplace, AtAssign(node), [assignedValue])];
    }
    return Emitted(messages);
  }

  /** How `visit_assign` reads an assignment's value. */
  datatype Trigger =
    | NoTrigger            // neither a naive attribute nor a naive constructor call
    | Triggered(name: string)
    | CallOnNonAttribute   // a call whose callee is not an attribute access

  /** The target is a name whose inferred type is `datetime.datetime` or `datetime.time`. */
  predicate NaiveTypedTarget(t: Target) {
    t.AssignName? && t.inferred.Inferred? && t.inferred.qname in NaiveTypeNames
  }

  function AssignTrigger(value: Expr): Trigger {
    match value
    case Attribute(_, attrname) =>
      if attrname in NaiveAttributes then Triggered(attrname) else NoTrigger
    case Call(func, _, _) =>
      if !func.Attribute? then CallOnNonAttribute
      else if func.attrname in NaiveConstructors then Triggered(func.attrname)
      else NoTrigger
    case _ => NoTrigger
  }

  /** What `visit_assign` does for the assignment `node`. */
  function AssignOutcome(node: Assign): Outcome {
    if !NaiveTypedTarget(node.target) then Emitted([])
    else match AssignTrigger(node.value)
      case NoTrigger => Emitted([])
      case CallOnNonAttribute => Failed(CalleeNotAttribute)
      case Triggered(name) => ReplaceCheck(node, name)
  }

  /** `visit_assign`: a chain of guards on the first target and its inferred
      type, then on the assigned value, before the replace check. */
  method VisitAssign(node: Assign) returns (out: Outcome)
    ensures out == AssignOutcome(node)
  {
    var assignedVar := node.target;
    var assignedValue := node.value;
    out := Emitted([]);
    if assignedVar.AssignName? {
      var assignedVarType := assignedVar.inferred;
      if !assignedVarType.Uninferable? {
        if assignedVarType.qname in NaiveTypeNames {
          if assignedValue.Attribute? {
            if assignedValue.attrname in NaiveAttributes {
              out := NaivePropertiesMethodsReplace(node, assignedValue.attrname);
            }
          }
          if assignedValue.Call? {
            var func := assignedValue.func;
            if !func.Attribute? {
              return Failed(CalleeNotAttribute);
            }
            if func.attrname in NaiveConstructors {
              out := NaivePropertiesMethodsReplace(node, func.attrname);
            }
          }
        }
      }
    }
  }
}
