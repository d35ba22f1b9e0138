/** What the checker's rules promise, stated over `CallOutcome` and
    `AssignOutcome` (which `VisitCall` and `VisitAssign` are proved to compute). */
module CheckerProperties {
  import opened Ast
  import opened Messages
  import opened DatetimeChecker

  // ---------------------------------------------------------------------------
  // visit_call

  /** The three callee-name sets are pairwise disjoint. */
  lemma NameSetsDisjoint()
    ensures TimedeltaName !in TimezoneCallNames && TimedeltaName !in NaiveCallNames
    ensures TimezoneCallNames !! NaiveCallNames
  {
  }

  /** The timedelta scan stops at the first argument that does not equal 0:
      it is quiet when all arguments equal 0, fires when that first argument
      has a value, and is stuck when it has none. */
  lemma {:induction false} TimedeltaScanStopsAtFirstNonZero(args: seq<Expr>)
    ensures TimedeltaScan(args) == Quiet <==> ZeroPrefix(args, |args|)
    ensures TimedeltaScan(args) == Fire <==>
      exists i :: 0 <= i < |args| && ZeroPrefix(args, i) && NonZeroArgument(args[i])
    ensures TimedeltaScan(args) == Stuck <==>
      exists i :: 0 <= i < |args| && ZeroPrefix(args, i) && ValueAttr(args[i]).None?
  {
    if args != [] {
      var rest := args[1..];
      TimedeltaScanStopsAtFirstNonZero(rest);
      // a prefix of `args` past the head is the head plus a prefix of `rest`
      forall i | 0 <= i <= |rest|
        ensures ZeroPrefix(args, i + 1) <==> ZeroArgument(args[0]) && ZeroPrefix(rest, i)
      {
        if ZeroArgument(args[0]) && ZeroPrefix(rest, i) {
          forall j | 0 <= j < i + 1 ensures ZeroArgument(args[j]) {
            if j > 0 { assert args[j] == rest[j - 1]; }
          }
        }
        if ZeroPrefix(args, i + 1) {
          forall j | 0 <= j < i ensures ZeroArgument(rest[j]) {
            assert rest[j] == args[j + 1];
          }
        }
      }
      assert ZeroPrefix(args, 0);
      if TimedeltaScan(args) == Fire {
        if !NonZeroArgument(args[0]) {
          var i :| 0 <= i < |rest| && ZeroPrefix(rest, i) && NonZeroArgument(rest[i]);
          assert ZeroPrefix(args, i + 1) && NonZeroArgument(args[i + 1]);
        }
      } else {
        forall i | 0 <= i < |args| && ZeroPrefix(args, i) ensures !NonZeroArgument(args[i]) {
          if i > 0 { assert ZeroPrefix(rest, i - 1) && rest[i - 1] == args[i]; }
        }
      }
      if TimedeltaScan(args) == Stuck {
        if ValueAttr(args[0]).Some? {
          var i :| 0 <= i < |rest| && ZeroPrefix(rest, i) && ValueAttr(rest[i]).None?;
          assert ZeroPrefix(args, i + 1) && ValueAttr(args[i + 1]).None?;
        }
      } else {
        forall i | 0 <= i < |args| && ZeroPrefix(args, i) ensures ValueAttr(args[i]).Some? {
          if i > 0 { assert ZeroPrefix(rest, i - 1) && rest[i - 1] == args[i]; }
        }
      }
    }
  }

  /** `timedelta`: no message when every positional argument equals 0 (in
      particular when there are none); exactly one message, without
      arguments, when an argument differing from 0 comes first, however many
      follow; a fault when an argument without a `.value` comes first. */
  lemma TimedeltaRule(node: Expr)
    requires node.Call? && CalleeName(node.func) == Some(TimedeltaName)
    ensures CallOutcome(node) == Emitted([]) <==> ZeroPrefix(node.args, |node.args|)
    ensures CallOutcome(node) == Emitted([Message(TimedeltaNoKeywordArgs, AtExpr(node), [])]) <==>
      exists i :: 0 <= i < |node.args| && ZeroPrefix(node.args, i) && NonZeroArgument(node.args[i])
    ensures CallOutcome(node) == Failed(ArgumentWithoutValue) <==>
      exists i :: 0 <= i < |node.args| && ZeroPrefix(node.args, i) && ValueAttr(node.args[i]).None?
  {
    NameSetsDisjoint();
    TimedeltaScanStopsAtFirstNonZero(node.args);
  }

  /** `datetime`, `now`, `fromtimestamp`, `astimezone`: one
      `datetime-call-without-timezone` naming the callee exactly when no
      keyword is `tz` or `tzinfo` and no positional argument is an attribute
      access; nothing otherwise. */
  lemma TimezoneRule(node: Expr, name: string)
    requires node.Call? && CalleeName(node.func) == Some(name) && name in TimezoneCallNames
    ensures CallOutcome(node) == Emitted([Message(CallWithoutTimezone, AtExpr(node), [name])]) <==>
      !HasKeywordNamed(node.keywords, TimezoneKeywords) && !HasAttributeArgument(node.args)
    ensures CallOutcome(node) == Emitted([]) <==>
      HasKeywordNamed(node.keywords, TimezoneKeywords) || HasAttributeArgument(node.args)
  {
  }

  /** Only the keyword's name is looked at: `tz=None` or `tzinfo=None`
      suppresses the timezone message like any other value. */
  lemma TimezoneKeywordValueIgnored(node: Expr, name: string, kw: Keyword)
    requires node.Call? && CalleeName(node.func) == Some(name) && name in TimezoneCallNames
    requires kw in node.keywords && (kw.arg == Some("tz") || kw.arg == Some("tzinfo"))
    ensures CallOutcome(node) == Emitted([])
  {
  }

  /** `today`, `utcnow`, `utcfromtimestamp`, `utctimetuple`, `time`: always
      exactly one `datetime-naive-object-used` naming the callee, whatever
      the arguments. */
  lemma NaiveRule(node: Expr, name: string)
    requires node.Call? && CalleeName(node.func) == Some(name) && name in NaiveCallNames
    ensures CallOutcome(node) == Emitted([Message(NaiveObjectUsed, AtExpr(node), [name])])
  {
  }

  /** Any other named callee (`replace`, `fromordinal`, ...) yields nothing. */
  lemma UnlistedCalleeQuiet(node: Expr, name: string)
    requires node.Call? && CalleeName(node.func) == Some(name)
    requires name != TimedeltaName && name !in TimezoneCallNames && name !in NaiveCallNames
    ensures CallOutcome(node) == Emitted([])
  {
  }

  /** `visit_call` fails exactly when the callee is neither a name nor an
      attribute access, and then before looking at any argument. */
  lemma CalleeShapeFault(node: Expr)
    requires node.Call?
    ensures CallOutcome(node) == Failed(CalleeWithoutName) <==>
      !(node.func.Name? || node.func.FunctionDef? || node.func.Attribute?)
  {
  }

  /** `visit_call` adds at most one message, well formed and reported on the call. */
  lemma AtMostOneCallMessage(node: Expr)
    requires node.Call?
    ensures CallOutcome(node).Emitted? ==> |CallOutcome(node).messages| <= 1
    ensures CallOutcome(node).Emitted? ==>
      forall m :: m in CallOutcome(node).messages ==> WellFormed(m) && m.anchor == AtExpr(node)
  {
  }

  // ---------------------------------------------------------------------------
  // visit_assign

  /** The replace check is reached only for a name target inferred as
      `datetime.datetime` or `datetime.time` whose value is `.min`/`.max`, or
      a call of `.fromordinal`/`.fromisocalendar`; with these it is reached
      with the matched name. A call whose callee is not an attribute access
      faults; anything else is quiet. */
  lemma ReplaceCheckReached(node: Assign)
    ensures !(node.target.AssignName? && node.target.inferred.Inferred?
              && node.target.inferred.qname in NaiveTypeNames)
      ==> AssignOutcome(node) == Emitted([])
    ensures NaiveTypedTarget(node.target) && node.value.Attribute?
      ==> AssignOutcome(node) ==
            if node.value.attrname in NaiveAttributes then ReplaceCheck(node, node.value.attrname)
            else Emitted([])
    ensures NaiveTypedTarget(node.target) && node.value.Call? && node.value.func.Attribute?
      ==> AssignOutcome(node) ==
            if node.value.func.attrname in NaiveConstructors then ReplaceCheck(node, node.value.func.attrname)
            else Emitted([])
    ensures AssignOutcome(node) == Failed(CalleeNotAttribute) <==>
      NaiveTypedTarget(node.target) && node.value.Call? && !node.value.func.Attribute?
    ensures !node.value.Attribute? && !node.value.Call? ==> AssignOutcome(node) == Emitted([])
  {
  }

  /** The four outcomes of the replace check (and the fault on a following
      statement without a `.value`). The receiver of `replace` is never
      looked at, and only a `tzinfo` keyword counts, not `tz`. */
  lemma ReplaceCheckOutcomes(node: Assign, matched: string)
    ensures node.next.None? ==>
      ReplaceCheck(node, matched) == Emitted([Message(MissingTimezoneReplace, AtAssign(node), [matched])])
    ensures node.next.Some? && node.next.value.value.None? ==>
      ReplaceCheck(node, matched) == Failed(SiblingWithoutValue)
    ensures node.next.Some? && node.next.value.value.Some? ==>
      var v := node.next.value.value.value;
      && (!(v.Call? && v.func.Attribute? && v.func.attrname == "replace") ==>
            ReplaceCheck(node, matched) == Emitted([Message(MissingTimezoneReplace, AtAssign(node), [matched])]))
      && (v.Call? && v.func.Attribute? && v.func.attrname == "replace" ==>
            (ReplaceCheck(node, matched) == Emitted([Message(CallWithoutTimezone, AtExpr(v), ["replace"])]) <==>
               !(exists k :: k in v.keywords && k.arg == Some("tzinfo")) && !(exists a :: a in v.args && a.Attribute?))
            && (ReplaceCheck(node, matched) == Emitted([]) <==>
               (exists k :: k in v.keywords && k.arg == Some("tzinfo")) || (exists a :: a in v.args && a.Attribute?)))
  {
  }

  /** `tz=` does not satisfy the replace check: a following `x.replace(tz=...)`
      is reported as a replace call without timezone, for any receiver `x`. */
  lemma ReplaceIgnoresTzKeyword(node: Assign, matched: string, receiver: Expr, zone: Expr)
    requires node.next == Some(Statement(Some(Call(Attribute(receiver, "replace"), [], [Keyword(Some("tz"), zone)]))))
    ensures ReplaceCheck(node, matched) ==
      Emitted([Message(CallWithoutTimezone, AtExpr(node.next.value.value.value), ["replace"])])
  {
  }

  /** `visit_assign` adds at most one message, and it is well formed. */
  lemma AtMostOneAssignMessage(node: Assign)
    ensures AssignOutcome(node).Emitted? ==> |AssignOutcome(node).messages| <= 1
    ensures AssignOutcome(node).Emitted? ==>
      forall m :: m in AssignOutcome(node).messages ==> WellFormed(m)
  {
  }
}
